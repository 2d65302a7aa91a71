/**
 The request/response logic of the remote image client. The SDK call itself is
 not modelled: the caller supplies how it ended (a response, or a thrown value),
 and the model says which request was built, which image the response yields
 and which error message the client throws.
 */
module GeminiService {
  import opened Optional
  import opened JsStrings
  import opened Types
  import FileUtils

  // ---------------------------------------------------------------- request

  const Model := "gemini-2.5-flash-image"

  /** The fixed text of the prompt template, between the interpolated values. */
  const PromptHead := "\n      Task: Enhance and transform the provided image.\n      Upscale Factor: Upscale the image to "
  const AfterFactor := " its original size, adding plausible details to maintain quality at the new resolution.\n      Creativity Level: "
  const AfterCreativity := ". A higher level means more artistic interpretation and 'hallucinated' details. A lower level means staying more faithful to the original image.\n      "
  const RequestTag := "User's Request: \""
  const PromptTail := "\n      \n      Carefully analyze the image and the user's request. Apply the upscaling and creative transformation as instructed.\n    "

  /** The text that precedes the user's words: everything fixed by the two numbers. */
  function PromptPrefix(upscaleFactor: nat, creativity: nat): string
  {
    PromptHead + DecimalString(upscaleFactor) + "x" + AfterFactor
      + DecimalString(creativity) + "/100" + AfterCreativity + RequestTag
  }

  /** The instruction sent to the model, with the three values interpolated. */
  function ComposePrompt(prompt: string, upscaleFactor: nat, creativity: nat): (text: string)
    ensures |text| == |PromptPrefix(upscaleFactor, creativity)| + |prompt| + 1 + |PromptTail|
  {
    PromptPrefix(upscaleFactor, creativity) + prompt + "\"" + PromptTail
  }

  /** Each interpolated value, with the fixed text right around it, occurs in
      the filled-in template, whatever the rest of the template says. */
  lemma TemplateMentionsValues(head: string, f: string, mid: string, c: string, rest: string,
                               tag: string, p: string, tail: string)
    ensures var text := head + f + "x" + mid + c + "/100" + rest + tag + p + "\"" + tail;
            Includes(text, f + "x") && Includes(text, c + "/100") && Includes(text, tag + p + "\"")
  {
    var text := head + f + "x" + mid + c + "/100" + rest + tag + p + "\"" + tail;
    assert text == head + (f + "x") + (mid + c + "/100" + rest + tag + p + "\"" + tail);
    IncludesInfix(head, f + "x", mid + c + "/100" + rest + tag + p + "\"" + tail);
    assert text == (head + f + "x" + mid) + (c + "/100") + (rest + tag + p + "\"" + tail);
    IncludesInfix(head + f + "x" + mid, c + "/100", rest + tag + p + "\"" + tail);
    assert text == (head + f + "x" + mid + c + "/100" + rest) + (tag + p + "\"") + tail;
    IncludesInfix(head + f + "x" + mid + c + "/100" + rest, tag + p + "\"", tail);
  }

  /** The composed text names the factor as `<n>x`, the level as `<n>/100`, and
      quotes the user's request verbatim after its tag. */
  lemma ComposedPromptMentionsEveryInput(prompt: string, upscaleFactor: nat, creativity: nat)
    ensures Includes(ComposePrompt(prompt, upscaleFactor, creativity), DecimalString(upscaleFactor) + "x")
    ensures Includes(ComposePrompt(prompt, upscaleFactor, creativity), DecimalString(creativity) + "/100")
    ensures Includes(ComposePrompt(prompt, upscaleFactor, creativity), RequestTag + prompt + "\"")
  {
    TemplateMentionsValues(PromptHead, DecimalString(upscaleFactor), AfterFactor, DecimalString(creativity),
                           AfterCreativity, RequestTag, prompt, PromptTail);
  }

  /** The user's words can be cut back out of the composed text: nothing is
      escaped, trimmed or truncated. */
  lemma UserPromptRecoverable(prompt: string, upscaleFactor: nat, creativity: nat)
    ensures var text := ComposePrompt(prompt, upscaleFactor, creativity);
            var start := |PromptPrefix(upscaleFactor, creativity)|;
            text[start..|text| - 1 - |PromptTail|] == prompt
  {
  }

  datatype Modality = Image

  /** One part of the request's content. */
  datatype RequestPart = InlineDataPart(data: Option<string>, mimeType: string) | TextPart(text: string)

  datatype Request = Request(model: string, parts: seq<RequestPart>, responseModalities: seq<Modality>)

  /** The request body: the image first, then the composed text; an image reply is asked for. */
  function BuildRequest(image: ImageData, text: string): (request: Request)
    ensures |request.parts| == 2
    ensures request.parts[0] == InlineDataPart(image.base64, image.mimeType)
    ensures request.parts[1] == TextPart(text)
    ensures request.model == Model && request.responseModalities == [Image]
  {
    Request(Model, [InlineDataPart(image.base64, image.mimeType), TextPart(text)], [Image])
  }

  // --------------------------------------------------------------- response

  /** The fragment of the SDK's response shape that the client reads. Every
      level may be absent. */
  datatype Blob = Blob(data: Option<string>, mimeType: Option<string>)
  datatype Part = Part(inlineData: Option<Blob>)
  datatype Content = Content(parts: Option<seq<Part>>)
  datatype Candidate = Candidate(content: Option<Content>)
  datatype Response = Response(candidates: Option<seq<Candidate>>)

  /** `response.candidates?.[0]?.content?.parts || []`: the parts of the first
      candidate, or none when any step of the chain is missing. */
  function FirstCandidateParts(response: Response): (parts: seq<Part>)
    ensures response.candidates.None? || response.candidates.value == [] ==> parts == []
    ensures response.candidates.Some? && response.candidates.value != [] ==>
      var first := response.candidates.value[0];
      && (first.content.None? ==> parts == [])
      && (first.content.Some? && first.content.value.parts.None? ==> parts == [])
      && (first.content.Some? && first.content.value.parts.Some? ==> parts == first.content.value.parts.value)
  {
    match response.candidates
    case None => []
    case Some(candidates) =>
      if |candidates| == 0 then []
      else match candidates[0].content
        case None => []
        case Some(content) =>
          match content.parts
          case None => []
          case Some(parts) => parts
  }

  /** The first candidate's parts are the ones scanned, whatever candidates
      follow it: later candidates are never read. */
  lemma OnlyFirstCandidateRead(first: Candidate, rest: seq<Candidate>, ps: seq<Part>)
    ensures FirstCandidateParts(Response(Some([first] + rest))) == FirstCandidateParts(Response(Some([first])))
    ensures FirstCandidateParts(Response(Some([Candidate(Some(Content(Some(ps))))] + rest))) == ps
  {
  }

  /** `part.inlineData?.data` is truthy: present and non-empty. */
  predicate CarriesImage(part: Part)
  {
    part.inlineData.Some? && part.inlineData.value.data.Some? && part.inlineData.value.data.value != ""
  }

  /** A template literal renders an absent value as `undefined`. */
  function Interpolate(value: Option<string>): string
  {
    match value
    case Some(s) => s
    case None => "undefined"
  }

  /** `data:<mimeType>;base64,<data>`. */
  function DataUri(mimeType: string, data: string): (uri: string)
    ensures StartsWith(uri, "data:")
  {
    "data:" + mimeType + ";base64," + data
  }

  /** The displayable URI of an image-bearing part. */
  function PartUri(part: Part): string
    requires CarriesImage(part)
  {
    DataUri(Interpolate(part.inlineData.value.mimeType), part.inlineData.value.data.value)
  }

  /** The URI of the first part, in order, that carries image data. */
  function FirstImageUri(parts: seq<Part>): Option<string>
  {
    if |parts| == 0 then None
    else if CarriesImage(parts[0]) then Some(PartUri(parts[0]))
    else FirstImageUri(parts[1..])
  }

  /** The first image-bearing part is the one chosen: the parts before it are
      skipped and whatever follows it is ignored. */
  lemma {:induction false} FirstImageUriIsFirstCarrier(parts: seq<Part>, i: int)
    requires 0 <= i < |parts| && CarriesImage(parts[i])
    requires forall j :: 0 <= j < i ==> !CarriesImage(parts[j])
    ensures FirstImageUri(parts) == Some(PartUri(parts[i]))
    decreases i
  {
    if i > 0 {
      assert !CarriesImage(parts[0]);
      FirstImageUriIsFirstCarrier(parts[1..], i - 1);
    }
  }

  /** No image is found exactly when no part carries image data. */
  lemma {:induction false} FirstImageUriAbsent(parts: seq<Part>)
    ensures FirstImageUri(parts).None? <==> forall i :: 0 <= i < |parts| ==> !CarriesImage(parts[i])
    decreases |parts|
  {
    if |parts| > 0 {
      FirstImageUriAbsent(parts[1..]);
      assert forall i :: 1 <= i < |parts| ==> parts[i] == parts[1..][i - 1];
    }
  }

  /** Parts after the chosen image never change the answer. */
  lemma {:induction false} LaterPartsIgnored(parts: seq<Part>, later: seq<Part>)
    requires FirstImageUri(parts).Some?
    ensures FirstImageUri(parts + later) == FirstImageUri(parts)
    decreases |parts|
  {
    assert (parts + later)[0] == parts[0];
    if !CarriesImage(parts[0]) {
      assert (parts + later)[1..] == parts[1..] + later;
      LaterPartsIgnored(parts[1..], later);
    }
  }

  /** The `for...of` loop over the parts, returning on the first image. */
  method FindImageUri(parts: seq<Part>) returns (uri: Option<string>)
    ensures uri == FirstImageUri(parts)
  {
    var i := 0;
    while i < |parts|
      invariant 0 <= i <= |parts|
      invariant FirstImageUri(parts[i..]) == FirstImageUri(parts)
    {
      var part := parts[i];
      assert parts[i..][0] == part && parts[i..][1..] == parts[i + 1..];
      if part.inlineData.Some? && part.inlineData.value.data.Some? && part.inlineData.value.data.value != "" {
        return Some(DataUri(Interpolate(part.inlineData.value.mimeType), part.inlineData.value.data.value));
      }
      i := i + 1;
    }
    return None;
  }

  /** Splitting the built URI at its commas recovers the payload, so the
      uploader's payload extraction undoes the client's URI construction. */
  lemma DataUriPayloadRoundTrip(mimeType: string, data: string)
    requires ',' !in mimeType && ',' !in data
    ensures FileUtils.PayloadOf(DataUri(mimeType, data)) == Some(data)
  {
    var head := "data:" + mimeType + ";base64";
    assert DataUri(mimeType, data) == head + "," + data + "";
    assert ',' !in head;
    FileUtils.PayloadBetweenFirstCommas(head, data, "");
  }

  // ----------------------------------------------------------------- errors

  /** A value thrown by a callee: an `Error` with its message, or anything else. */
  datatype Thrown = ErrorObject(message: string) | NonErrorValue

  /** How the SDK call ended. */
  datatype CallOutcome = Responded(response: Response) | Threw(thrown: Thrown)

  /** How the client's promise settles. */
  datatype Settled = Fulfilled(url: string) | Rejected(reason: Thrown)

  const ApiKeyMarker := "API key not valid"
  const InvalidKeyMessage := "The API key is invalid. " + "Please check your configuration."
  const FailurePrefix := "Failed to process image. "
  const UnknownErrorMessage := "An unknown error occurred."
  const NoImageMessage := "No image data found in the API response."

  /** The message the catch block reads off whatever was thrown. */
  function CaughtMessage(thrown: Thrown): string
  {
    match thrown
    case ErrorObject(message) => message
    case NonErrorValue => UnknownErrorMessage
  }

  /** The message of the error the client rethrows. */
  function RethrownMessage(thrown: Thrown): (message: string)
    ensures message == InvalidKeyMessage <==> Includes(CaughtMessage(thrown), ApiKeyMarker)
    ensures message != InvalidKeyMessage ==> message == FailurePrefix + CaughtMessage(thrown)
  {
    var caught := CaughtMessage(thrown);
    if Includes(caught, ApiKeyMarker) then InvalidKeyMessage
    else
      var failure := FailurePrefix + caught;
      assert failure[0] == 'F' && InvalidKeyMessage[0] == 'T';
      failure
  }

  /** A credential complaint anywhere in the message collapses to one fixed message. */
  lemma InvalidKeyWhateverSurrounds(before: string, after: string)
    ensures RethrownMessage(ErrorObject(before + ApiKeyMarker + after)) == InvalidKeyMessage
  {
    IncludesInfix(before, ApiKeyMarker, after);
  }

  /** A response without an image surfaces through the same catch block. */
  lemma NoImageIsReportedAsFailure()
    ensures RethrownMessage(ErrorObject(NoImageMessage)) == FailurePrefix + NoImageMessage
  {
    assert ApiKeyMarker[4] == 'k' && 'k' !in NoImageMessage;
    MissingCharacterExcludes(NoImageMessage, ApiKeyMarker, 4);
  }

  /** `processImageWithGemini`: builds the request, then settles from the
      SDK call's outcome. It only ever rejects with an `Error`. */
  method ProcessImageWithGemini(image: ImageData, prompt: string, upscaleFactor: nat, creativity: nat,
                                call: CallOutcome)
    returns (request: Request, settled: Settled)
    ensures request == BuildRequest(image, ComposePrompt(prompt, upscaleFactor, creativity))
    ensures call.Threw? ==> settled == Rejected(ErrorObject(RethrownMessage(call.thrown)))
    ensures call.Responded? ==>
      match FirstImageUri(FirstCandidateParts(call.response))
      case Some(uri) => settled == Fulfilled(uri)
      case None => settled == Rejected(ErrorObject(FailurePrefix + NoImageMessage))
    ensures settled.Rejected? ==> settled.reason.ErrorObject?
  {
    var fullPrompt := ComposePrompt(prompt, upscaleFactor, creativity);
    request := BuildRequest(image, fullPrompt);
    var thrown: Thrown;
    match call {
      case Threw(t) =>
        thrown := t;
      case Responded(response) =>
        var uri := FindImageUri(FirstCandidateParts(response));
        if uri.Some? {
          return request, Fulfilled(uri.value);
        }
        thrown := ErrorObject(NoImageMessage);
        NoImageIsReportedAsFailure();
    }
    settled := Rejected(ErrorObject(RethrownMessage(thrown)));
  }
}
