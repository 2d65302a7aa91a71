/**
 The workflow orchestrator: the application's state and the handlers that
 change it. Each handler is a transition function on `AppState`; the class
 `Workflow` holds the same state in mutable fields and its methods perform the
 handlers' updates step by step.

 The two asynchronous handlers are split at their `await`: uploading into
 `UploadStart` / `UploadResolve`, submitting into `SubmitStart` /
 `SubmitResolve`. Anything may happen between the halves, and a resolution is
 applied whatever happened in between: the handlers keep no request identity.
 */
module App {
  import opened Optional
  import opened Types
  import FileUtils
  import GeminiService

  const DefaultPrompt := "Make this image breathtakingly beautiful, cinematic, and hyper-realistic."
  /** The factors the control panel offers. */
  const UpscaleOptions: seq<nat> := [2, 4, 8, 16]
  const MissingImageError := "Please upload an image first."
  const ReadFailedError := "Failed to read the image file."
  const UnknownProcessingError := "An unknown error occurred during processing."

  datatype AppState = AppState(
    originalImage: Option<ImageData>,
    originalImageUrl: Option<string>,
    processedImageUrl: Option<string>,
    prompt: string,
    upscaleFactor: nat,
    creativity: nat,
    isProcessing: bool,
    error: Option<string>)

  /** The arguments `handleProcessImage` hands to the remote client. */
  datatype ServiceCall = ServiceCall(image: ImageData, prompt: string, upscaleFactor: nat, creativity: nat)

  function Initial(): AppState
  {
    AppState(None, None, None, DefaultPrompt, 4, 75, false, None)
  }

  /** What the controls guarantee about the parameters, and that no result is
      held while a request is being processed. */
  ghost predicate Invariant(s: AppState)
  {
    s.upscaleFactor in UpscaleOptions && s.creativity <= 100
    && (s.isProcessing ==> s.processedImageUrl.None?)
  }

  /** JavaScript truthiness of an optional string: present and non-empty. */
  predicate Truthy(v: Option<string>)
  {
    v.Some? && v.value != ""
  }

  /** The comparison view replaces the uploader when all three values are truthy. */
  predicate ShowsResultViewer(s: AppState)
  {
    Truthy(s.processedImageUrl) && Truthy(s.originalImageUrl) && s.originalImage.Some?
  }

  /** The preview overlay over the uploader, which is there only when the
      comparison view is not. */
  predicate ShowsPreview(s: AppState)
  {
    !ShowsResultViewer(s) && Truthy(s.originalImageUrl) && !s.isProcessing
  }

  /** The progress overlay over the uploader, which is there only when the
      comparison view is not. */
  predicate ShowsProgress(s: AppState)
  {
    !ShowsResultViewer(s) && s.isProcessing && Truthy(s.originalImageUrl)
  }

  /** The submit button is enabled. */
  predicate CanSubmit(s: AppState)
  {
    !s.isProcessing && s.originalImage.Some?
  }

  // ------------------------------------------------------------ transitions

  function WithPrompt(s: AppState, prompt: string): AppState
  {
    s.(prompt := prompt)
  }

  function WithUpscaleFactor(s: AppState, factor: nat): AppState
    requires factor in UpscaleOptions
  {
    s.(upscaleFactor := factor)
  }

  function WithCreativity(s: AppState, creativity: nat): AppState
    requires creativity <= 100
  {
    s.(creativity := creativity)
  }

  /** `handleImageUpload` up to its `await`. */
  function UploadStarted(s: AppState): AppState
  {
    s.(error := None)
  }

  /** `handleImageUpload` after the file has been read, or failed to be. */
  function UploadSettled(s: AppState, file: FileUtils.File, read: FileUtils.ReadOutcome, objectUrl: string): AppState
  {
    match FileUtils.FileToImageData(file, read)
    case Some(image) =>
      s.(originalImage := Some(image), originalImageUrl := Some(objectUrl), processedImageUrl := None)
    case None =>
      s.(error := Some(ReadFailedError))
  }

  /** The remote call `handleProcessImage` makes, if any. */
  function SubmitCall(s: AppState): Option<ServiceCall>
  {
    match s.originalImage
    case None => None
    case Some(image) => Some(ServiceCall(image, s.prompt, s.upscaleFactor, s.creativity))
  }

  /** `handleProcessImage` up to its `await`. */
  function SubmitStarted(s: AppState): AppState
  {
    if s.originalImage.None? then s.(error := Some(MissingImageError))
    else s.(isProcessing := true, error := None, processedImageUrl := None)
  }

  /** The message the handler shows for whatever the client threw. */
  function ProcessingErrorMessage(reason: GeminiService.Thrown): string
  {
    match reason
    case ErrorObject(message) => message
    case NonErrorValue => UnknownProcessingError
  }

  /** `handleProcessImage` after the client's promise settles. */
  function SubmitSettled(s: AppState, outcome: GeminiService.Settled): AppState
  {
    match outcome
    case Fulfilled(url) => s.(processedImageUrl := Some(url), isProcessing := false)
    case Rejected(reason) => s.(error := Some(ProcessingErrorMessage(reason)), isProcessing := false)
  }

  /** `handleStartOver`. */
  function StartedOver(s: AppState): AppState
  {
    s.(originalImage := None, originalImageUrl := None, processedImageUrl := None, error := None, isProcessing := false)
  }

  // ----------------------------------------------------------------- lemmas

  /** The application opens idle: default parameters, nothing uploaded, nothing to submit. */
  lemma InitialIsIdle()
    ensures var s := Initial();
            Invariant(s) && s.prompt == DefaultPrompt && s.upscaleFactor == 4 && s.creativity == 75
            && !s.isProcessing && s.error.None? && s.originalImage.None?
            && s.originalImageUrl.None? && s.processedImageUrl.None?
            && !CanSubmit(s) && !ShowsResultViewer(s) && !ShowsPreview(s) && !ShowsProgress(s)
  {
  }

  /** Every handler keeps the invariant. */
  lemma InvariantPreserved(s: AppState, file: FileUtils.File, read: FileUtils.ReadOutcome, objectUrl: string,
                           outcome: GeminiService.Settled, prompt: string, factor: nat, creativity: nat)
    requires Invariant(s)
    requires factor in UpscaleOptions && creativity <= 100
    ensures Invariant(WithPrompt(s, prompt))
    ensures Invariant(WithUpscaleFactor(s, factor))
    ensures Invariant(WithCreativity(s, creativity))
    ensures Invariant(UploadStarted(s))
    ensures Invariant(UploadSettled(s, file, read, objectUrl))
    ensures Invariant(SubmitStarted(s))
    ensures Invariant(SubmitSettled(s, outcome))
    ensures Invariant(StartedOver(s))
  {
  }

  /** A completed upload installs the read image and clears the old result and
      error; a failed read reports itself and keeps the previous image. */
  lemma UploadOutcome(s: AppState, file: FileUtils.File, read: FileUtils.ReadOutcome, objectUrl: string)
    ensures var t := UploadSettled(UploadStarted(s), file, read, objectUrl);
            && t.prompt == s.prompt && t.upscaleFactor == s.upscaleFactor && t.creativity == s.creativity
            && t.isProcessing == s.isProcessing
            && (read.Loaded? ==>
                  && t.originalImage == Some(ImageData(FileUtils.PayloadOf(read.dataUrl), file.mimeType, file.name))
                  && t.originalImageUrl == Some(objectUrl)
                  && t.processedImageUrl.None? && t.error.None?)
            && (read.ReadFailed? ==>
                  t == s.(error := Some(ReadFailedError)))
  {
  }

  /** Submitting without an image reports it, calls nothing and changes nothing else. */
  lemma SubmitWithoutImage(s: AppState)
    requires s.originalImage.None?
    ensures SubmitCall(s).None?
    ensures SubmitStarted(s) == s.(error := Some(MissingImageError))
  {
  }

  /** Submitting with an image calls the client with the current image and
      parameters, after marking the request as in flight and clearing the
      error and the previous result. */
  lemma SubmitWithImage(s: AppState)
    requires s.originalImage.Some?
    ensures SubmitCall(s) == Some(ServiceCall(s.originalImage.value, s.prompt, s.upscaleFactor, s.creativity))
    ensures var t := SubmitStarted(s);
            t.isProcessing && t.error.None? && t.processedImageUrl.None?
            && t == s.(isProcessing := true, error := None, processedImageUrl := None)
  {
  }

  /** An enabled button always leads to a remote call, and the button is
      disabled while a request is in flight. */
  lemma EnabledSubmitCalls(s: AppState)
    ensures CanSubmit(s) ==> SubmitCall(s).Some? && SubmitStarted(s).isProcessing
    ensures s.isProcessing ==> !CanSubmit(s)
  {
  }

  /** After a submission settles the request is no longer in flight; success
      stores the URL, failure stores the message and leaves no result. */
  lemma SubmissionSettles(s: AppState, outcome: GeminiService.Settled)
    requires s.originalImage.Some?
    ensures var t := SubmitSettled(SubmitStarted(s), outcome);
            && !t.isProcessing
            && t.originalImage == s.originalImage && t.originalImageUrl == s.originalImageUrl
            && t.prompt == s.prompt && t.upscaleFactor == s.upscaleFactor && t.creativity == s.creativity
            && (outcome.Fulfilled? ==> t.processedImageUrl == Some(outcome.url) && t.error.None?)
            && (outcome.Rejected? ==>
                  t.processedImageUrl.None? && t.error == Some(ProcessingErrorMessage(outcome.reason)))
  {
  }

  /** The handler passes an `Error`'s message through and shows a generic
      message for anything else. (`GeminiService.ProcessImageWithGemini`
      states that the client itself only rejects with an `Error`.) */
  lemma ErrorMessagePassesThrough(message: string)
    ensures ProcessingErrorMessage(GeminiService.ErrorObject(message)) == message
    ensures ProcessingErrorMessage(GeminiService.NonErrorValue) == UnknownProcessingError
  {
  }

  /** Starting over clears the image, both URLs and the error and ends
      processing; the parameters stay as they were. */
  lemma StartOverClears(s: AppState)
    ensures var t := StartedOver(s);
            && t.originalImage.None? && t.originalImageUrl.None? && t.processedImageUrl.None?
            && t.error.None? && !t.isProcessing
            && t.prompt == s.prompt && t.upscaleFactor == s.upscaleFactor && t.creativity == s.creativity
            && !CanSubmit(t) && !ShowsResultViewer(t) && !ShowsPreview(t) && !ShowsProgress(t)
  {
  }

  /** With non-empty URLs, the comparison view is shown exactly when the
      processed URL, the original URL and the image are all present. */
  lemma ResultViewerCondition(s: AppState)
    requires s.processedImageUrl.Some? ==> s.processedImageUrl.value != ""
    requires s.originalImageUrl.Some? ==> s.originalImageUrl.value != ""
    ensures ShowsResultViewer(s) <==>
      s.processedImageUrl.Some? && s.originalImageUrl.Some? && s.originalImage.Some?
  {
  }

  /** The comparison view and the uploader's two overlays never show
      together, and once an image URL is set exactly one of them shows. In a
      reachable state a request in flight always shows the progress overlay,
      since no result is held meanwhile. */
  lemma OverlaysExclusive(s: AppState)
    ensures !(ShowsPreview(s) && ShowsProgress(s))
    ensures !(ShowsResultViewer(s) && (ShowsPreview(s) || ShowsProgress(s)))
    ensures Truthy(s.originalImageUrl) ==> ShowsResultViewer(s) || ShowsPreview(s) || ShowsProgress(s)
    ensures Invariant(s) && s.isProcessing && Truthy(s.originalImageUrl) ==> ShowsProgress(s)
  {
  }

  /** An interleaving of the handlers: a request that settles after a
      start-over and another upload still stores its result, and the
      comparison view then pairs it with the new image. (The page offers
      start-over only in the comparison view, which is hidden while a request
      is in flight; `LateResultAfterReupload` is the sequence a user can
      produce.) */
  lemma LateResultShownWithNewImage(s: AppState, file: FileUtils.File, dataUrl: string, objectUrl: string, url: string)
    requires s.originalImage.Some?
    requires objectUrl != "" && url != ""
    ensures var restarted := StartedOver(SubmitStarted(s));
            var reloaded := UploadSettled(UploadStarted(restarted), file, FileUtils.Loaded(dataUrl), objectUrl);
            var t := SubmitSettled(reloaded, GeminiService.Fulfilled(url));
            && !restarted.isProcessing
            && t.processedImageUrl == Some(url)
            && t.originalImage == FileUtils.FileToImageData(file, FileUtils.Loaded(dataUrl))
            && ShowsResultViewer(t)
  {
  }

  /** A file chosen while a request is in flight replaces the image without
      ending processing, and the request's result is then stored and shown
      against the new image. The uploader's file input stays in the page
      under the progress overlay, so this needs no start-over. */
  lemma LateResultAfterReupload(s: AppState, file: FileUtils.File, dataUrl: string, objectUrl: string, url: string)
    requires s.originalImage.Some?
    requires objectUrl != "" && url != ""
    ensures var inFlight := SubmitStarted(s);
            var reloaded := UploadSettled(UploadStarted(inFlight), file, FileUtils.Loaded(dataUrl), objectUrl);
            var t := SubmitSettled(reloaded, GeminiService.Fulfilled(url));
            && reloaded.isProcessing && ShowsProgress(reloaded)
            && t.processedImageUrl == Some(url)
            && t.originalImage == FileUtils.FileToImageData(file, FileUtils.Loaded(dataUrl))
            && ShowsResultViewer(t)
  {
  }

  /** An interleaving of the handlers: when two requests overlap, the older
      one settling ends `isProcessing` while the newer one is still in
      flight. */
  lemma OlderSettlementEndsNewerProcessing(s: AppState, file: FileUtils.File, dataUrl: string, objectUrl: string,
                                           outcome: GeminiService.Settled)
    requires s.originalImage.Some?
    ensures var first := SubmitStarted(s);
            var reloaded := UploadSettled(UploadStarted(StartedOver(first)), file, FileUtils.Loaded(dataUrl), objectUrl);
            var second := SubmitStarted(reloaded);
            second.isProcessing && !SubmitSettled(second, outcome).isProcessing
  {
  }

  /** Upload, choose 8x and creativity 30, submit, and let the service answer
      with one JPEG part: the result URL is that part's data URI, the request
      carries the chosen values, and processing has ended. */
  lemma UpscaleScenario(file: FileUtils.File, dataUrl: string, objectUrl: string)
    ensures var uploaded := UploadSettled(UploadStarted(Initial()), file, FileUtils.Loaded(dataUrl), objectUrl);
            var configured := WithCreativity(WithUpscaleFactor(uploaded, 8), 30);
            var call := SubmitCall(configured);
            var parts := [GeminiService.Part(Some(GeminiService.Blob(Some("AAAA"), Some("image/jpeg"))))];
            var uri := GeminiService.FirstImageUri(parts);
            && call.Some? && call.value.upscaleFactor == 8 && call.value.creativity == 30
            && call.value.image.mimeType == file.mimeType
            && uri == Some("data:image/jpeg;base64,AAAA")
            && var t := SubmitSettled(SubmitStarted(configured), GeminiService.Fulfilled(uri.value));
               t.processedImageUrl == Some("data:image/jpeg;base64,AAAA") && !t.isProcessing
  {
    var parts := [GeminiService.Part(Some(GeminiService.Blob(Some("AAAA"), Some("image/jpeg"))))];
    GeminiService.FirstImageUriIsFirstCarrier(parts, 0);
    assert GeminiService.PartUri(parts[0]) == "data:" + "image/jpeg" + ";base64," + "AAAA";
    assert "data:" + "image/jpeg" + ";base64," + "AAAA" == "data:image/jpeg;base64,AAAA";
  }

  // ------------------------------------------------------------------ class

  /** The component's state hooks, as mutable fields. */
  class Workflow {
    var originalImage: Option<ImageData>
    var originalImageUrl: Option<string>
    var processedImageUrl: Option<string>
    var prompt: string
    var upscaleFactor: nat
    var creativity: nat
    var isProcessing: bool
    var error: Option<string>

    function State(): AppState
      reads this
    {
      AppState(originalImage, originalImageUrl, processedImageUrl, prompt, upscaleFactor, creativity, isProcessing, error)
    }

    ghost predicate Valid()
      reads this
    {
      Invariant(State())
    }

    /** The initial values of the state hooks. */
    constructor ()
      ensures Valid() && State() == Initial()
      ensures prompt == DefaultPrompt && upscaleFactor == 4 && creativity == 75
      ensures !isProcessing && error.None? && originalImage.None?
      ensures originalImageUrl.None? && processedImageUrl.None?
    {
      originalImage := None;
      originalImageUrl := None;
      processedImageUrl := None;
      prompt := DefaultPrompt;
      upscaleFactor := 4;
      creativity := 75;
      isProcessing := false;
      error := None;
    }

    method SetPrompt(value: string)
      requires Valid()
      modifies this
      ensures Valid() && State() == WithPrompt(old(State()), value)
    {
      prompt := value;
    }

    /** Only the offered factors can be picked. */
    method SetUpscaleFactor(factor: nat)
      requires Valid() && factor in UpscaleOptions
      modifies this
      ensures Valid() && State() == WithUpscaleFactor(old(State()), factor)
    {
      upscaleFactor := factor;
    }

    /** The range input reports whole numbers from 0 to 100. */
    method SetCreativity(value: nat)
      requires Valid() && value <= 100
      modifies this
      ensures Valid() && State() == WithCreativity(old(State()), value)
    {
      creativity := value;
    }

    /** `handleImageUpload` before the file is read: the error is cleared. */
    method UploadStart()
      requires Valid()
      modifies this
      ensures Valid() && State() == UploadStarted(old(State()))
      ensures error.None?
    {
      error := None;
    }

    /** `handleImageUpload` once the read has settled. `objectUrl` stands for
        the browser's object URL for the file. */
    method UploadResolve(file: FileUtils.File, read: FileUtils.ReadOutcome, objectUrl: string)
      requires Valid()
      modifies this
      ensures Valid() && State() == UploadSettled(old(State()), file, read, objectUrl)
      ensures read.ReadFailed? ==> originalImage == old(originalImage) && error == Some(ReadFailedError)
      ensures read.Loaded? ==> originalImage.Some? && processedImageUrl.None? && error == old(error)
    {
      var image := FileUtils.FileToImageData(file, read);
      if image.None? {
        error := Some(ReadFailedError);
        return;
      }
      originalImage := image;
      originalImageUrl := Some(objectUrl);
      processedImageUrl := None;
    }

    /** `handleProcessImage` up to the remote call; `call` is that call's
        arguments, absent when there is no image and nothing is called. */
    method SubmitStart() returns (call: Option<ServiceCall>)
      requires Valid()
      modifies this
      ensures Valid() && State() == SubmitStarted(old(State()))
      ensures call == SubmitCall(old(State()))
      ensures old(originalImage).None? ==> call.None? && error == Some(MissingImageError)
      ensures old(originalImage).Some? ==> isProcessing && error.None? && processedImageUrl.None?
    {
      if originalImage.None? {
        error := Some(MissingImageError);
        return None;
      }
      isProcessing := true;
      error := None;
      processedImageUrl := None;
      call := Some(ServiceCall(originalImage.value, prompt, upscaleFactor, creativity));
    }

    /** `handleProcessImage` once the client's promise has settled, applied
        whatever the state is by then. */
    method SubmitResolve(outcome: GeminiService.Settled)
      requires Valid()
      modifies this
      ensures Valid() && State() == SubmitSettled(old(State()), outcome)
      ensures !isProcessing
      ensures outcome.Fulfilled? ==> processedImageUrl == Some(outcome.url) && error == old(error)
      ensures outcome.Rejected? ==>
        processedImageUrl == old(processedImageUrl) && error == Some(ProcessingErrorMessage(outcome.reason))
    {
      match outcome {
        case Fulfilled(url) =>
          processedImageUrl := Some(url);
        case Rejected(reason) =>
          error := Some(ProcessingErrorMessage(reason));
      }
      isProcessing := false;
    }

    /** `handleStartOver`. */
    method StartOver()
      requires Valid()
      modifies this
      ensures Valid() && State() == StartedOver(old(State()))
      ensures originalImage.None? && originalImageUrl.None? && processedImageUrl.None?
      ensures error.None? && !isProcessing
      ensures prompt == old(prompt) && upscaleFactor == old(upscaleFactor) && creativity == old(creativity)
    {
      originalImage := None;
      originalImageUrl := None;
      processedImageUrl := None;
      error := None;
      isProcessing := false;
    }
  }
}
