/** The translation coordinator: one observable `state`, driven by the
    entry actions translate-selection, OCR-and-translate, translate and
    dismiss, through language detection, target resolution, service
    selection, streaming and the one-shot fallback.

    Everything the coordinator asks of the outside world (permission,
    the selection grabber, screen capture, user defaults, the keychain, the
    recognizer and the backends' streams) arrives as an `Environment`
    value. The object keeps, besides `state`, two ghost logs: every state it
    has published and every stream it has requested. */
module Coordinator {
  import opened Wrappers
  import opened Text
  import LanguageDetector

  datatype TranslationResult = TranslationResult(
    sourceText: string,
    translatedText: string,
    sourceLang: string,
    targetLang: string,
    service: string)

  datatype State =
    | Idle
    | Grabbing
    | Translating(sourceText: string)
    | Streaming(sourceText: string, partial: string)
    | Completed(result: TranslationResult)
    | Error(message: string)
  {
    /** A state that ends an operation. */
    predicate IsTerminal() {
      Completed? || Error?
    }
  }

  /** A translation error: its user-visible description and whether it
      warrants the fallback backend. */
  datatype TranslationError = TranslationError(description: string, shouldFallback: bool)

  /** What a stream may throw: a translation error, or any other error. */
  datatype Failure =
    | Translation(error: TranslationError)
    | Other(message: string)
  {
    function Description(): string {
      if Translation? then error.description else message
    }

    /** `catch let error as TranslationError where error.shouldFallback`. */
    predicate ShouldFallback() {
      Translation? && error.shouldFallback
    }
  }

  /** One `translateStream` run: the chunks it yields, then either normal
      completion (`failure == None`) or the error it throws. */
  datatype Stream = Stream(chunks: seq<string>, failure: Option<Failure>)

  datatype Service = Apple | OpenAI

  /** One call of a backend's `translateStream`. */
  datatype Request = Request(service: Service, text: string, from: Option<string>, to: string)

  /** What screen capture with OCR produces: recognized text, an `OCRError`
      (user cancellation among others), or any other error. */
  datatype Capture =
    | Recognized(text: string)
    | OCRFailure(message: string)
    | CaptureFailure(message: string)

  /** The coordinator's collaborators, as values. `primary` is what the
      selected service's stream yields, `fallback` what the fallback
      service's stream yields; `emptyResult` is the error thrown for a
      stream that completed without text. */
  datatype Environment = Environment(
    accessibilityGranted: bool,
    selection: Option<string>,
    capture: Capture,
    targetLanguage: string,
    preferredService: string,
    appleAvailable: bool,
    apiKey: Option<string>,
    recognizer: LanguageDetector.Recognizer,
    primary: Stream,
    fallback: Stream,
    appleName: string,
    openAIName: string,
    emptyResult: TranslationError)

  const PermissionMessage := "Accessibility permission not granted. Open Settings to enable it."
  const NoSelectionMessage := "No text selected. Select some text and try again."
  const EmptyTextMessage := "Empty text"
  const OCRFailedPrefix := "OCR failed: "
  const UnknownLanguage := "unknown"

  // ---------------------------------------------------------------------
  // Pure policies

  /** The effective target language. It is the preferred target, except
      that a detected language equal to the preferred one, or both being
      Chinese, flips it to English (Chinese) or Simplified Chinese (others). */
  function ResolveTargetLanguage(detected: Option<string>, preferred: string): (r: string)
    ensures detected.None? ==> r == preferred
    ensures detected.Some? ==> r != detected.value
    ensures detected.Some? && HasPrefix(detected.value, "zh") ==> !HasPrefix(r, "zh")
    ensures r != preferred ==>
              detected.Some?
              && ((HasPrefix(detected.value, "zh") && HasPrefix(preferred, "zh") && r == "en")
                  || (detected.value == preferred && !HasPrefix(preferred, "zh") && r == "zh-Hans"))
  {
    EnglishIsNotChinese();
    match detected
    case None => preferred
    case Some(d) =>
      if HasPrefix(d, "zh") && HasPrefix(preferred, "zh") then "en"
      else if d == preferred then (if HasPrefix(d, "zh") then "en" else "zh-Hans")
      else preferred
  }

  lemma EnglishIsNotChinese()
    ensures !HasPrefix("en", "zh")
  {
    assert "en"[..2][0] == 'e';
  }

  /** The Apple service exactly when it is preferred and available, OpenAI otherwise. */
  function ResolveService(preferred: string, appleAvailable: bool): (s: Service)
    ensures s == Apple <==> preferred == "apple" && appleAvailable
    ensures s == OpenAI <==> preferred != "apple" || !appleAvailable
  {
    if preferred == "apple" && appleAvailable then Apple else OpenAI
  }

  function ServiceName(env: Environment, service: Service): string {
    match service
    case Apple => env.appleName
    case OpenAI => env.openAIName
  }

  /** The keychain holds a non-empty OpenAI key. */
  predicate HasApiKey(env: Environment) {
    env.apiKey.Some? && env.apiKey.value != ""
  }

  // ---------------------------------------------------------------------
  // Specification of streaming

  /** The chunks joined in order. */
  function Concat(chunks: seq<string>): string {
    if chunks == [] then "" else Concat(chunks[..|chunks| - 1]) + chunks[|chunks| - 1]
  }

  /** The states published while the chunks arrive: after each chunk, the
      text so far. */
  function StreamTrace(text: string, chunks: seq<string>): seq<State> {
    if chunks == [] then []
    else StreamTrace(text, chunks[..|chunks| - 1]) + [Streaming(text, Concat(chunks))]
  }

  /** What one streaming attempt returns or throws. */
  function Attempt(text: string, name: string, detectedLang: Option<string>, targetLang: string,
                   stream: Stream, emptyResult: TranslationError): Result<TranslationResult, Failure>
  {
    if stream.failure.Some? then Failure(stream.failure.value)
    else if Concat(stream.chunks) == "" then Failure(Translation(emptyResult))
    else Success(TranslationResult(text, Concat(stream.chunks), detectedLang.GetOr(UnknownLanguage),
                                   targetLang, name))
  }

  function Outcome(attempt: Result<TranslationResult, Failure>): State {
    match attempt
    case Success(result) => Completed(result)
    case Failure(e) => Error(e.Description())
  }

  // ---------------------------------------------------------------------
  // Specification of the entry actions

  function Detected(env: Environment, trimmed: string): Option<string> {
    LanguageDetector.Detection(trimmed, LanguageDetector.DefaultThreshold, None, env.recognizer).language
  }

  function Target(env: Environment, trimmed: string): string {
    ResolveTargetLanguage(Detected(env, trimmed), env.targetLanguage)
  }

  function PrimaryService(env: Environment): Service {
    ResolveService(env.preferredService, env.appleAvailable)
  }

  function PrimaryAttempt(env: Environment, trimmed: string): Result<TranslationResult, Failure> {
    Attempt(trimmed, ServiceName(env, PrimaryService(env)), Detected(env, trimmed), Target(env, trimmed),
            env.primary, env.emptyResult)
  }

  function FallbackAttempt(env: Environment, trimmed: string): Result<TranslationResult, Failure> {
    Attempt(trimmed, env.openAIName, Detected(env, trimmed), Target(env, trimmed),
            env.fallback, env.emptyResult)
  }

  /** The primary attempt threw an error that qualifies for the fallback. */
  predicate FallbackQualifies(env: Environment, trimmed: string) {
    PrimaryAttempt(env, trimmed).Failure? && PrimaryAttempt(env, trimmed).error.ShouldFallback()
  }

  /** The fallback runs: the error qualifies and there is a key. */
  predicate FallbackRuns(env: Environment, trimmed: string) {
    FallbackQualifies(env, trimmed) && HasApiKey(env)
  }

  function FallbackTrace(env: Environment, trimmed: string, originalError: TranslationError): seq<State> {
    if !HasApiKey(env) then [Error(originalError.description)]
    else StreamTrace(trimmed, env.fallback.chunks) + [Outcome(FallbackAttempt(env, trimmed))]
  }

  /** The states published once the primary stream has ended. */
  function AfterPrimary(env: Environment, trimmed: string): seq<State> {
    match PrimaryAttempt(env, trimmed)
    case Success(result) => [Completed(result)]
    case Failure(e) =>
      if e.ShouldFallback() then FallbackTrace(env, trimmed, e.error) else [Error(e.Description())]
  }

  /** Every state `translate(text)` publishes, in order. */
  function TranslateTrace(env: Environment, text: string): seq<State> {
    var trimmed := Trim(text);
    if trimmed == [] then [Error(EmptyTextMessage)]
    else [Translating(trimmed)] + StreamTrace(trimmed, env.primary.chunks) + AfterPrimary(env, trimmed)
  }

  /** The stream requested once the primary stream has ended, if any. */
  function FallbackRequests(env: Environment, trimmed: string): seq<Request> {
    if FallbackRuns(env, trimmed) then [Request(OpenAI, trimmed, Detected(env, trimmed), Target(env, trimmed))]
    else []
  }

  /** Every stream `translate(text)` requests, in order. */
  function TranslateRequests(env: Environment, text: string): seq<Request> {
    var trimmed := Trim(text);
    if trimmed == [] then []
    else [PrimaryRequest(env, trimmed)] + FallbackRequests(env, trimmed)
  }

  /** The primary service's stream request for a trimmed text. */
  function PrimaryRequest(env: Environment, trimmed: string): Request {
    Request(PrimaryService(env), trimmed, Detected(env, trimmed), Target(env, trimmed))
  }

  lemma TranslateUnfold(env: Environment, text: string, trimmed: string)
    requires trimmed == Trim(text) && trimmed != []
    ensures TranslateTrace(env, text)
            == [Translating(trimmed)] + StreamTrace(trimmed, env.primary.chunks) + AfterPrimary(env, trimmed)
    ensures TranslateRequests(env, text) == [PrimaryRequest(env, trimmed)] + FallbackRequests(env, trimmed)
  {
  }

  /** The states `translateSelection` publishes after `grabbing`. */
  function AfterGrab(env: Environment): seq<State> {
    match env.selection
    case None => [Error(NoSelectionMessage)]
    case Some(text) => TranslateTrace(env, text)
  }

  /** Every state `translateSelection` publishes, in order. */
  function SelectionTrace(env: Environment): seq<State> {
    if !env.accessibilityGranted then [Error(PermissionMessage)] else [Grabbing] + AfterGrab(env)
  }

  function SelectionRequests(env: Environment): seq<Request> {
    if env.accessibilityGranted && env.selection.Some? then TranslateRequests(env, env.selection.value) else []
  }

  /** The states `ocrAndTranslate` publishes after `grabbing`. */
  function AfterCapture(env: Environment): seq<State> {
    match env.capture
    case Recognized(text) => TranslateTrace(env, text)
    case OCRFailure(_) => [Idle]
    case CaptureFailure(message) => [Error(OCRFailedPrefix + message)]
  }

  /** Every state `ocrAndTranslate` publishes, in order. */
  function OCRTrace(env: Environment): seq<State> {
    [Grabbing] + AfterCapture(env)
  }

  function OCRRequests(env: Environment): seq<Request> {
    if env.capture.Recognized? then TranslateRequests(env, env.capture.text) else []
  }

  lemma Append3Assoc<T>(a: seq<T>, b: seq<T>, c: seq<T>)
    ensures a + b + c == a + (b + c)
  {
  }

  lemma AppendAssoc<T>(a: seq<T>, b: seq<T>, c: seq<T>, d: seq<T>)
    ensures a + b + c + d == a + (b + c + d)
  {
  }

  // ---------------------------------------------------------------------
  // The coordinator

  class TranslationCoordinator {
    var state: State
    /** Every state assigned so far, the current one last. */
    ghost var published: seq<State>
    /** Every stream requested so far. */
    ghost var requests: seq<Request>

    ghost predicate Valid()
      reads this
    {
      |published| > 0 && state == published[|published| - 1]
    }

    constructor ()
      ensures Valid() && state == Idle && published == [Idle] && requests == []
    {
      state := Idle;
      published := [Idle];
      requests := [];
    }

    /** Assigns `state`, which observers see. */
    method Publish(s: State)
      requires Valid()
      modifies this
      ensures Valid() && state == s
      ensures published == old(published) + [s] && requests == old(requests)
    {
      state := s;
      published := published + [s];
    }

    method TranslateSelection(env: Environment)
      requires Valid()
      modifies this
      ensures Valid()
      ensures published == old(published) + SelectionTrace(env)
      ensures requests == old(requests) + SelectionRequests(env)
    {
      if !env.accessibilityGranted {
        Publish(Error(PermissionMessage));
        return;
      }
      Publish(Grabbing);
      ghost var grabbed := published;
      match env.selection {
        case None =>
          Publish(Error(NoSelectionMessage));
        case Some(text) =>
          Translate(env, text);
      }
      assert published == grabbed + AfterGrab(env);
      Append3Assoc(old(published), [Grabbing], AfterGrab(env));
    }

    method OCRAndTranslate(env: Environment)
      requires Valid()
      modifies this
      ensures Valid()
      ensures published == old(published) + OCRTrace(env)
      ensures requests == old(requests) + OCRRequests(env)
    {
      Publish(Grabbing);
      ghost var grabbed := published;
      match env.capture {
        case Recognized(text) =>
          Translate(env, text);
        case OCRFailure(_) =>
          Publish(Idle);
        case CaptureFailure(message) =>
          Publish(Error(OCRFailedPrefix + message));
      }
      assert published == grabbed + AfterCapture(env);
      Append3Assoc(old(published), [Grabbing], AfterCapture(env));
    }

    method Translate(env: Environment, text: string)
      requires Valid()
      modifies this
      ensures Valid()
      ensures published == old(published) + TranslateTrace(env, text)
      ensures requests == old(requests) + TranslateRequests(env, text)
    {
      var trimmed := Trim(text);
      if trimmed == [] {
        Publish(Error(EmptyTextMessage));
        return;
      }
      Publish(Translating(trimmed));
      var detectedLang := LanguageDetector.Detect(trimmed, env.recognizer);
      var targetLang := ResolveTargetLanguage(detectedLang, env.targetLanguage);
      var service := ResolveService(env.preferredService, env.appleAvailable);
      assert detectedLang == Detected(env, trimmed);
      assert targetLang == Target(env, trimmed);
      assert service == PrimaryService(env);
      ghost var before := published;
      ghost var requested := requests;
      var attempt := PerformStreamingTranslation(trimmed, service, ServiceName(env, service),
                                                 detectedLang, targetLang, env.primary, env.emptyResult);
      assert attempt == PrimaryAttempt(env, trimmed);
      ghost var streamed := published;
      ghost var primaryRequested := requests;
      match attempt {
        case Success(result) =>
          Publish(Completed(result));
          assert AfterPrimary(env, trimmed) == [Completed(result)];
          assert FallbackRequests(env, trimmed) == [];
        case Failure(e) =>
          if e.ShouldFallback() {
            AttemptFallbackTranslation(env, trimmed, detectedLang, targetLang, e.error);
            assert AfterPrimary(env, trimmed) == FallbackTrace(env, trimmed, e.error);
            assert FallbackRuns(env, trimmed) == HasApiKey(env);
          } else {
            Publish(Error(e.Description()));
            assert AfterPrimary(env, trimmed) == [Error(e.Description())];
            assert FallbackRequests(env, trimmed) == [];
          }
      }
      assert published == streamed + AfterPrimary(env, trimmed);
      assert requests == primaryRequested + FallbackRequests(env, trimmed);
      TranslateUnfold(env, text, trimmed);
      AppendAssoc(old(published), [Translating(trimmed)], StreamTrace(trimmed, env.primary.chunks),
                  AfterPrimary(env, trimmed));
      Append3Assoc(old(requests), [PrimaryRequest(env, trimmed)], FallbackRequests(env, trimmed));
    }

    /** Forces `idle`, from any state. */
    method Dismiss()
      requires Valid()
      modifies this
      ensures Valid() && state == Idle
      ensures published == old(published) + [Idle] && requests == old(requests)
    {
      Publish(Idle);
    }

    /** Streams one attempt, publishing the text so far after every chunk. */
    method PerformStreamingTranslation(text: string, service: Service, name: string,
                                       detectedLang: Option<string>, targetLang: string,
                                       stream: Stream, emptyResult: TranslationError)
      returns (attempt: Result<TranslationResult, Failure>)
      requires Valid()
      modifies this
      ensures Valid()
      ensures attempt == Attempt(text, name, detectedLang, targetLang, stream, emptyResult)
      ensures published == old(published) + StreamTrace(text, stream.chunks)
      ensures requests == old(requests) + [Request(service, text, detectedLang, targetLang)]
    {
      requests := requests + [Request(service, text, detectedLang, targetLang)];
      var accumulated := "";
      var i := 0;
      while i < |stream.chunks|
        invariant 0 <= i <= |stream.chunks|
        invariant Valid()
        invariant accumulated == Concat(stream.chunks[..i])
        invariant published == old(published) + StreamTrace(text, stream.chunks[..i])
        invariant requests == old(requests) + [Request(service, text, detectedLang, targetLang)]
      {
        accumulated := accumulated + stream.chunks[i];
        assert stream.chunks[..i + 1][..i] == stream.chunks[..i];
        Publish(Streaming(text, accumulated));
        i := i + 1;
      }
      assert stream.chunks[..i] == stream.chunks;
      if stream.failure.Some? {
        return Failure(stream.failure.value);
      }
      if accumulated == "" {
        return Failure(Translation(emptyResult));
      }
      return Success(TranslationResult(text, accumulated, detectedLang.GetOr(UnknownLanguage), targetLang, name));
    }

    /** The one retry on the OpenAI service, only with a non-empty key. */
    method AttemptFallbackTranslation(env: Environment, text: string, detectedLang: Option<string>,
                                      targetLang: string, originalError: TranslationError)
      requires Valid()
      modifies this
      ensures Valid()
      ensures published == old(published) +
                (if !HasApiKey(env) then [Error(originalError.description)]
                 else StreamTrace(text, env.fallback.chunks)
                      + [Outcome(Attempt(text, env.openAIName, detectedLang, targetLang, env.fallback, env.emptyResult))])
      ensures requests == old(requests) +
                (if HasApiKey(env) then [Request(OpenAI, text, detectedLang, targetLang)] else [])
    {
      if !(env.apiKey.Some? && env.apiKey.value != "") {
        Publish(Error(originalError.description));
        return;
      }
      var attempt := PerformStreamingTranslation(text, OpenAI, env.openAIName, detectedLang, targetLang,
                                                 env.fallback, env.emptyResult);
      match attempt {
        case Success(result) =>
          Publish(Completed(result));
        case Failure(e) =>
          Publish(Error(e.Description()));
      }
    }
  }

  // ---------------------------------------------------------------------
  // Properties of the specification

  function Last<T>(s: seq<T>): T
    requires s != []
  {
    s[|s| - 1]
  }

  /** The accumulator is empty exactly when every chunk was empty, however many arrived. */
  lemma {:induction false} ConcatEmptyIff(chunks: seq<string>)
    ensures Concat(chunks) == "" <==> forall k :: 0 <= k < |chunks| ==> chunks[k] == ""
  {
    if chunks != [] {
      var init := chunks[..|chunks| - 1];
      ConcatEmptyIff(init);
      assert forall k :: 0 <= k < |init| ==> init[k] == chunks[k];
    }
  }

  /** Joining the first `k` chunks gives a prefix of joining them all. */
  lemma {:induction false} ConcatPrefix(chunks: seq<string>, k: nat)
    requires k <= |chunks|
    ensures Concat(chunks[..k]) <= Concat(chunks)
  {
    if k < |chunks| {
      var init := chunks[..|chunks| - 1];
      assert chunks[..k] == init[..k];
      ConcatPrefix(init, k);
    } else {
      assert chunks[..k] == chunks;
    }
  }

  /** One streaming state per chunk; the `k`-th carries the source text and
      the first `k + 1` chunks joined. */
  lemma {:induction false} StreamTraceAt(text: string, chunks: seq<string>)
    ensures |StreamTrace(text, chunks)| == |chunks|
    ensures forall k :: 0 <= k < |chunks| ==>
              StreamTrace(text, chunks)[k] == Streaming(text, Concat(chunks[..k + 1]))
  {
    if chunks != [] {
      var init := chunks[..|chunks| - 1];
      StreamTraceAt(text, init);
      forall k | 0 <= k < |chunks|
        ensures StreamTrace(text, chunks)[k] == Streaming(text, Concat(chunks[..k + 1]))
      {
        if k < |init| {
          assert init[..k + 1] == chunks[..k + 1];
        } else {
          assert chunks[..k + 1] == chunks;
        }
      }
    }
  }

  /** A later partial text extends every earlier one. */
  lemma PartialsGrow(text: string, chunks: seq<string>, j: nat, k: nat)
    requires j <= k < |chunks|
    ensures |StreamTrace(text, chunks)| == |chunks|
    ensures StreamTrace(text, chunks)[j].Streaming? && StreamTrace(text, chunks)[k].Streaming?
    ensures StreamTrace(text, chunks)[j].partial <= StreamTrace(text, chunks)[k].partial
  {
    StreamTraceAt(text, chunks);
    ConcatPrefix(chunks[..k + 1], j + 1);
    assert chunks[..k + 1][..j + 1] == chunks[..j + 1];
  }

  /** A stream that ends normally fails exactly when every chunk was
      empty, and then with `emptyResult`. */
  lemma EmptyStreamFails(text: string, name: string, detectedLang: Option<string>, targetLang: string,
                         stream: Stream, emptyResult: TranslationError)
    requires stream.failure.None?
    ensures Attempt(text, name, detectedLang, targetLang, stream, emptyResult).Failure?
            <==> forall k :: 0 <= k < |stream.chunks| ==> stream.chunks[k] == ""
    ensures Attempt(text, name, detectedLang, targetLang, stream, emptyResult).Failure? ==>
              Attempt(text, name, detectedLang, targetLang, stream, emptyResult).error == Translation(emptyResult)
  {
    ConcatEmptyIff(stream.chunks);
  }

  /** A successful attempt carries the source text, everything streamed,
      the detected language or "unknown", the target and the service's name. */
  lemma AttemptSuccess(text: string, name: string, detectedLang: Option<string>, targetLang: string,
                       stream: Stream, emptyResult: TranslationError)
    requires Attempt(text, name, detectedLang, targetLang, stream, emptyResult).Success?
    ensures stream.failure.None?
    ensures Attempt(text, name, detectedLang, targetLang, stream, emptyResult).value
            == TranslationResult(text, Concat(stream.chunks), detectedLang.GetOr(UnknownLanguage), targetLang, name)
    ensures exists k :: 0 <= k < |stream.chunks| && stream.chunks[k] != ""
  {
    ConcatEmptyIff(stream.chunks);
  }

  /** What follows the primary stream ends in a terminal state, preceded
      only by the fallback's streaming states for the same source text. */
  lemma AfterPrimaryShape(env: Environment, trimmed: string)
    ensures AfterPrimary(env, trimmed) != []
    ensures Last(AfterPrimary(env, trimmed)).IsTerminal()
    ensures forall k :: 0 <= k < |AfterPrimary(env, trimmed)| - 1 ==>
              AfterPrimary(env, trimmed)[k].Streaming? && AfterPrimary(env, trimmed)[k].sourceText == trimmed
  {
    if FallbackRuns(env, trimmed) {
      StreamTraceAt(trimmed, env.fallback.chunks);
    }
  }

  /** Input that is whitespace only ends in the empty-text error at once:
      nothing is translated and no backend is asked. */
  lemma EmptyTextRejected(env: Environment, text: string)
    requires AllWhitespace(text)
    ensures TranslateTrace(env, text) == [Error(EmptyTextMessage)]
    ensures TranslateRequests(env, text) == []
  {
  }

  /** Other input: `translating` with the trimmed text first, a terminal
      state last, and in between only streaming states of the trimmed text. */
  lemma TranslateShape(env: Environment, text: string, trimmed: string)
    requires trimmed == Trim(text) && !AllWhitespace(text)
    ensures |TranslateTrace(env, text)| >= 2
    ensures TranslateTrace(env, text)[0] == Translating(trimmed) && trimmed != []
    ensures Last(TranslateTrace(env, text)).IsTerminal()
    ensures forall k :: 0 < k < |TranslateTrace(env, text)| - 1 ==>
              TranslateTrace(env, text)[k].Streaming? && TranslateTrace(env, text)[k].sourceText == trimmed
  {
    var trace := TranslateTrace(env, text);
    var st := StreamTrace(trimmed, env.primary.chunks);
    var after := AfterPrimary(env, trimmed);
    StreamTraceAt(trimmed, env.primary.chunks);
    AfterPrimaryShape(env, trimmed);
    assert trace == [Translating(trimmed)] + st + after;
    forall k | 0 < k < |trace| - 1
      ensures trace[k].Streaming? && trace[k].sourceText == trimmed
    {
      if k <= |st| {
        assert trace[k] == st[k - 1];
      } else {
        assert trace[k] == after[k - 1 - |st|];
      }
    }
  }

  /** At most one fallback: one request, or two exactly when the fallback
      runs, the second on OpenAI; all for the trimmed text, the detected
      language and the resolved target. */
  lemma TranslateRequestsShape(env: Environment, text: string, trimmed: string)
    requires trimmed == Trim(text) && !AllWhitespace(text)
    ensures 1 <= |TranslateRequests(env, text)| <= 2
    ensures TranslateRequests(env, text)[0].service == PrimaryService(env)
    ensures |TranslateRequests(env, text)| == 2 <==> FallbackRuns(env, trimmed)
    ensures |TranslateRequests(env, text)| == 2 ==> TranslateRequests(env, text)[1].service == OpenAI
    ensures forall k :: 0 <= k < |TranslateRequests(env, text)| ==>
              TranslateRequests(env, text)[k].text == trimmed
              && TranslateRequests(env, text)[k].from == Detected(env, trimmed)
              && TranslateRequests(env, text)[k].to == Target(env, trimmed)
  {
  }

  /** An error that does not call for the fallback is final and shown as is. */
  lemma PlainErrorIsFinal(env: Environment, text: string, trimmed: string)
    requires trimmed == Trim(text) && trimmed != []
    requires PrimaryAttempt(env, trimmed).Failure? && !PrimaryAttempt(env, trimmed).error.ShouldFallback()
    ensures TranslateTrace(env, text)
            == [Translating(trimmed)] + StreamTrace(trimmed, env.primary.chunks)
               + [Error(PrimaryAttempt(env, trimmed).error.Description())]
    ensures TranslateRequests(env, text) == [PrimaryRequest(env, trimmed)]
  {
  }

  /** Without a non-empty key, a fallback-worthy error ends in the original
      error's message and no second backend is asked. */
  lemma MissingKeyKeepsOriginalError(env: Environment, text: string, trimmed: string)
    requires trimmed == Trim(text) && trimmed != []
    requires FallbackQualifies(env, trimmed) && !HasApiKey(env)
    ensures TranslateTrace(env, text)
            == [Translating(trimmed)] + StreamTrace(trimmed, env.primary.chunks)
               + [Error(PrimaryAttempt(env, trimmed).error.error.description)]
    ensures TranslateRequests(env, text) == [PrimaryRequest(env, trimmed)]
  {
  }

  /** When the fallback runs, its partial texts start again from its own
      first chunk, and its outcome (a fallback failure's message included)
      is the final state. */
  lemma FallbackOutcomeIsFinal(env: Environment, text: string, trimmed: string)
    requires trimmed == Trim(text) && trimmed != []
    requires FallbackRuns(env, trimmed)
    ensures |TranslateTrace(env, text)| == |env.primary.chunks| + |env.fallback.chunks| + 2
    ensures forall k :: |env.primary.chunks| < k <= |env.primary.chunks| + |env.fallback.chunks| ==>
              TranslateTrace(env, text)[k]
              == Streaming(trimmed, Concat(env.fallback.chunks[..k - |env.primary.chunks|]))
    ensures Last(TranslateTrace(env, text)) == Outcome(FallbackAttempt(env, trimmed))
    ensures FallbackAttempt(env, trimmed).Failure? ==>
              Last(TranslateTrace(env, text)) == Error(FallbackAttempt(env, trimmed).error.Description())
  {
    var st := StreamTrace(trimmed, env.primary.chunks);
    var fst := StreamTrace(trimmed, env.fallback.chunks);
    StreamTraceAt(trimmed, env.primary.chunks);
    StreamTraceAt(trimmed, env.fallback.chunks);
    assert AfterPrimary(env, trimmed) == fst + [Outcome(FallbackAttempt(env, trimmed))];
    var trace := TranslateTrace(env, text);
    assert trace == [Translating(trimmed)] + st + (fst + [Outcome(FallbackAttempt(env, trimmed))]);
    forall k | |env.primary.chunks| < k <= |env.primary.chunks| + |env.fallback.chunks|
      ensures trace[k] == Streaming(trimmed, Concat(env.fallback.chunks[..k - |env.primary.chunks|]))
    {
      assert trace[k] == fst[k - |env.primary.chunks| - 1];
    }
  }

  /** A completed translation is of the trimmed text into the resolved
      target, tagged with the detected language or "unknown", and holds
      the whole non-empty output of either the primary service or, when
      the fallback ran, of OpenAI. */
  lemma CompletedResult(env: Environment, text: string, trimmed: string, result: TranslationResult)
    requires trimmed == Trim(text) && Completed(result) in TranslateTrace(env, text)
    ensures trimmed != [] && Last(TranslateTrace(env, text)) == Completed(result)
    ensures result.sourceText == trimmed && result.targetLang == Target(env, trimmed)
    ensures result.sourceLang == Detected(env, trimmed).GetOr(UnknownLanguage)
    ensures result.translatedText != ""
    ensures || (PrimaryAttempt(env, trimmed).Success?
                && result.translatedText == Concat(env.primary.chunks)
                && result.service == ServiceName(env, PrimaryService(env)))
            || (FallbackRuns(env, trimmed)
                && result.translatedText == Concat(env.fallback.chunks)
                && result.service == env.openAIName)
  {
    var trace := TranslateTrace(env, text);
    var k :| 0 <= k < |trace| && trace[k] == Completed(result);
    assert !AllWhitespace(text);
    TranslateShape(env, text, trimmed);
    assert k == |trace| - 1;
    AfterPrimaryShape(env, trimmed);
    assert trace == [Translating(trimmed)] + StreamTrace(trimmed, env.primary.chunks) + AfterPrimary(env, trimmed);
    assert Last(AfterPrimary(env, trimmed)) == Completed(result);
    match PrimaryAttempt(env, trimmed) {
      case Success(r) =>
        assert AfterPrimary(env, trimmed) == [Completed(r)];
      case Failure(e) =>
        if FallbackRuns(env, trimmed) {
          assert AfterPrimary(env, trimmed)
                 == StreamTrace(trimmed, env.fallback.chunks) + [Outcome(FallbackAttempt(env, trimmed))];
        } else {
          // An error would be the last state.
          assert false;
        }
    }
  }

  // Entry actions other than `translate`

  /** Without accessibility permission the only state is the permission
      error: `grabbing` is never entered and no backend is asked. */
  lemma SelectionWithoutPermission(env: Environment)
    requires !env.accessibilityGranted
    ensures SelectionTrace(env) == [Error(PermissionMessage)]
    ensures Grabbing !in SelectionTrace(env)
    ensures SelectionRequests(env) == []
  {
  }

  /** A grab that finds no text ends in the no-selection error. */
  lemma SelectionWithoutText(env: Environment)
    requires env.accessibilityGranted && env.selection.None?
    ensures SelectionTrace(env) == [Grabbing, Error(NoSelectionMessage)]
    ensures SelectionRequests(env) == []
  {
  }

  /** A grabbed text goes through `translate` after `grabbing`. */
  lemma SelectionTranslates(env: Environment)
    requires env.accessibilityGranted && env.selection.Some?
    ensures SelectionTrace(env) == [Grabbing] + TranslateTrace(env, env.selection.value)
    ensures SelectionRequests(env) == TranslateRequests(env, env.selection.value)
  {
  }

  /** An `OCRError` (a cancelled capture among others) returns silently to
      `idle`; any other capture error is shown with the "OCR failed" prefix. */
  lemma OCRFailures(env: Environment)
    requires !env.capture.Recognized?
    ensures OCRRequests(env) == []
    ensures env.capture.OCRFailure? ==> OCRTrace(env) == [Grabbing, Idle]
    ensures env.capture.CaptureFailure? ==>
              OCRTrace(env) == [Grabbing, Error(OCRFailedPrefix + env.capture.message)]
  {
  }

  /** The resolver's four cases on concrete languages. */
  lemma TargetExamples()
    ensures ResolveTargetLanguage(None, "ja") == "ja"
    ensures ResolveTargetLanguage(Some("zh-Hant"), "zh-Hans") == "en"
    ensures ResolveTargetLanguage(Some("en"), "en") == "zh-Hans"
    ensures ResolveTargetLanguage(Some("ja"), "zh-Hans") == "zh-Hans"
  {
    assert HasPrefix("zh-Hant", "zh") && HasPrefix("zh-Hans", "zh");
    assert !HasPrefix("ja", "zh") by { assert "ja"[..2][0] == 'j'; }
  }

  /** A whole run: padded English text that the recognizer takes for
      English, OpenAI preferred, Simplified Chinese as the target and three
      chunks streamed without error. */
  lemma HelloWorldScenario(env: Environment)
    requires env.targetLanguage == "zh-Hans" && env.preferredService == "openai"
    requires env.recognizer("hello world", LanguageDetector.SupportedNLLanguages, LanguageDetector.MergedHints(None))
             == [(LanguageDetector.English, 0.9)]
    requires env.primary == Stream(["你", "好", "世界"], None)
    ensures TranslateTrace(env, "  hello world  ")
            == [Translating("hello world"),
                Streaming("hello world", "你"), Streaming("hello world", "你好"), Streaming("hello world", "你好世界"),
                Completed(TranslationResult("hello world", "你好世界", "en", "zh-Hans", env.openAIName))]
  {
    var trimmed := "hello world";
    TrimHelloWorld();
    TranslateUnfold(env, "  hello world  ", trimmed);
    HelloWorldDetection(env, trimmed);
    var chunks := env.primary.chunks;
    ConcatHelloWorld(chunks);
    StreamTraceAt(trimmed, chunks);
    assert StreamTrace(trimmed, chunks)
           == [Streaming(trimmed, "你"), Streaming(trimmed, "你好"), Streaming(trimmed, "你好世界")];
    var result := TranslationResult(trimmed, "你好世界", "en", "zh-Hans", env.openAIName);
    assert PrimaryAttempt(env, trimmed) == Success(result);
    assert AfterPrimary(env, trimmed) == [Completed(result)];
  }

  lemma TrimHelloWorld()
    ensures Trim("  hello world  ") == "hello world"
  {
    var text := "  hello world  ";
    assert text[0] == ' ' && text[1] == ' ' && text[2] == 'h';
    assert ContentStart(text, 2) == 2;
    assert ContentStart(text, 1) == 2;
    assert ContentStart(text, 0) == 2;
    assert text[12] == 'd' && text[13] == ' ' && text[14] == ' ';
    assert ContentEnd(text, 2, 13) == 13;
    assert ContentEnd(text, 2, 14) == 13;
    assert ContentEnd(text, 2, 15) == 13;
  }

  lemma ConcatHelloWorld(chunks: seq<string>)
    requires chunks == ["你", "好", "世界"]
    ensures chunks[..1] == ["你"] && chunks[..2] == ["你", "好"] && chunks[..3] == chunks
    ensures Concat(chunks[..1]) == "你" && Concat(chunks[..2]) == "你好" && Concat(chunks) == "你好世界"
  {
    assert chunks[..1] == ["你"] && chunks[..2] == ["你", "好"] && chunks[..3] == chunks;
    assert Concat(chunks[..0]) == "";
    assert chunks[..2][..1] == ["你"];
  }

  lemma HelloWorldDetection(env: Environment, trimmed: string)
    requires |trimmed| > LanguageDetector.ShortTextLength
    requires env.recognizer(trimmed, LanguageDetector.SupportedNLLanguages, LanguageDetector.MergedHints(None))
             == [(LanguageDetector.English, 0.9)]
    requires env.targetLanguage == "zh-Hans"
    ensures Detected(env, trimmed) == Some("en") && Target(env, trimmed) == "zh-Hans"
  {
    EnglishIsNotChinese();
  }
}
