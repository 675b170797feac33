# MoePeek translation core in Dafny

MoePeek is a macOS menu-bar translator. This project models its two
logic-bearing parts and proves properties of them:

- **The translation coordinator** (`Coordinator` module,
  `translation_coordinator.dfy`). The class `TranslationCoordinator` owns one
  observable `state` with six variants: idle, grabbing, translating,
  streaming, completed and error. It has four entry actions:
  - `TranslateSelection`: check the accessibility permission, grab the
    selected text, translate it;
  - `OCRAndTranslate`: capture the screen, recognise text, translate it;
  - `Translate`: trim, detect the language, resolve the target and the
    service, stream, and fall back once;
  - `Dismiss`.

  Besides `state`, the object keeps two ghost logs: `published` (every
  state assigned so far) and `requests` (every backend stream requested so
  far). Each method's contract gives both logs as the old log followed by a
  specification function of the inputs: `TranslateTrace`, `SelectionTrace`,
  `OCRTrace`, `StreamTrace` and the matching `…Requests` functions. The
  lemmas state what those sequences promise.
- **The language detector** (`LanguageDetector` module,
  `language_detector.dfy`). It covers:
  - the base hint weights and the additive merge of caller hints, an
    imperative loop over the caller's dictionary proved equal to a closed
    form;
  - picking the highest-confidence hypothesis;
  - raising the threshold for short text;
  - the reliability gate;
  - the two code-mapping functions and their round trip over the 14
    supported codes.
- `Text` (`text.dfy`) models Foundation's
  `trimmingCharacters(in: .whitespacesAndNewlines)` and `hasPrefix`.
  `Wrappers` (`wrappers.dfy`) holds `Option` and `Result`.

Everything the coordinator receives from the outside world is one
`Environment` value:
- the permission flag;
- the grabbed selection, or `None`;
- the capture outcome;
- the target-language and preferred-service defaults, and whether the Apple
  translation framework is available;
- the keychain's OpenAI key;
- the recognizer;
- what the primary and the fallback backends' streams yield;
- the two services' display names;
- the `emptyResult` error.

A stream is a finite sequence of chunks, then either normal completion or a
thrown `Failure`. A `Failure` is a `TranslationError`, which has a
description and a `shouldFallback` flag, or any other error.

The recognizer is an oracle. It is a function from the text, the
constraint list and the merged hints to the hypotheses (language,
confidence), in the order the platform dictionary yields them.

`NLLanguage` is modelled as what it is on Apple's platforms: a struct
wrapping a raw string. `.portuguese` has raw value `"pt"`. As a result,
`bcp47ToNLLanguage` never fails. `"pt"` and `"pt-BR"` both reach
Portuguese, and Portuguese always maps back to `"pt-BR"`.

## Model

| member | source | states |
|---|---|---|
| Text.Trim | Sources/Core/TranslationCoordinator.swift:60-61 | the result is a contiguous stretch of the input with only whitespace cut away on either side; it neither starts nor ends with whitespace; it is empty exactly when the input is all whitespace |
| LanguageDetector.Bcp47ToNLLanguage | Sources/Services/LanguageDetector.swift:80-87 | the mapping never fails; "pt-BR" gives Portuguese and every other code, "zh-Hans" and "zh-Hant" included, gives the language with that raw value |
| LanguageDetector.MapToBCP47 | Sources/Services/LanguageDetector.swift:89-96 | Portuguese gives "pt-BR"; every other language, the two Chinese scripts included, gives its raw value |
| LanguageDetector.CodeRoundTrip | Sources/Services/LanguageDetector.swift:80-96 | a code mapped to a language and back is unchanged exactly when it is not "pt"; "pt" comes back as "pt-BR" |
| LanguageDetector.LanguageRoundTrip | Sources/Services/LanguageDetector.swift:80-96 | a language mapped to a code and back is unchanged exactly when its raw value is not "pt-BR" |
| LanguageDetector.SupportedCodesRoundTrip | Sources/UI/Settings/ServiceSettingsView.swift:105-120 | the settings screen's 14 codes map position by position onto the recognizer's 14 constrained languages and back, so every supported code round-trips |
| LanguageDetector.CodesForIsPreimage | Sources/Services/LanguageDetector.swift:80-87 | `CodesFor(l)` is exactly the set of codes the mapping sends to `l` |
| LanguageDetector.NoHintsKeepBase | Sources/Services/LanguageDetector.swift:45-46 | without caller hints the merged hints are the base weights |
| LanguageDetector.MergedHintsAdd | Sources/Services/LanguageDetector.swift:47-50 | a caller hint adds its weight to the mapped language's base weight, taken as 0 when the language has none |
| LanguageDetector.MergedHintsPortuguese | Sources/Services/LanguageDetector.swift:47-50 | hints for both "pt" and "pt-BR" both land on Portuguese, whose weight becomes 0.3 plus both weights |
| LanguageDetector.MergedHintsKeys | Sources/Services/LanguageDetector.swift:45-52 | the merged hints cover exactly the base languages and the languages the caller's codes reach |
| LanguageDetector.MergedHintsUntouched | Sources/Services/LanguageDetector.swift:45-52 | a language no caller code reaches keeps its base weight, and is present only if it has one |
| LanguageDetector.AddWithDefault | Sources/Services/LanguageDetector.swift:49 | `hints[l, default: 0] += w`: the key is added if missing, its value grows by `w`, all other entries are kept |
| LanguageDetector.MergeStep | Sources/Services/LanguageDetector.swift:47-50 | one loop iteration turns the partial merge over the codes seen so far into the partial merge over one more code |
| LanguageDetector.MergeHints | Sources/Services/LanguageDetector.swift:44-52 | the loop over the caller's dictionary, visited in any order, yields the closed-form merged hints |
| LanguageDetector.Ranked | Sources/Services/LanguageDetector.swift:57-59 | each hypothesis keeps its confidence and has its language mapped to a code, in order |
| LanguageDetector.Best | Sources/Services/LanguageDetector.swift:58-62 | no pick exactly for an empty list; otherwise a listed hypothesis whose confidence no other exceeds |
| LanguageDetector.EffectiveThreshold | Sources/Services/LanguageDetector.swift:67-69 | `max(threshold, 0.5)` for texts of at most 5 characters, `threshold` otherwise |
| LanguageDetector.Decide | Sources/Services/LanguageDetector.swift:57-77 | no hypotheses give (nil, 0, unreliable); a language is reported exactly when the result is reliable; reliable exactly when the best confidence reaches the effective threshold; the reported confidence is the maximum, reliable or not; a reported language is a mapped hypothesis carrying that confidence |
| LanguageDetector.DetectWithConfidence | Sources/Services/LanguageDetector.swift:36-78 | merges the hints, runs the recognizer over the 14 constrained languages and returns the gated decision; the language is present exactly when reliable |
| LanguageDetector.Detect | Sources/Services/LanguageDetector.swift:30-32 | equals the language of a full detection at threshold 0.3 without caller hints |
| LanguageDetector.ShortTextNeedsHalf | Sources/Services/LanguageDetector.swift:67-71 | on a text of at most 5 characters, no confidence below 0.5 is reliable, whatever the threshold |
| LanguageDetector.ShortTextExample | Sources/Services/LanguageDetector.swift:67-77 | confidence 0.4 on short text at threshold 0.3 gives (nil, 0.4, unreliable) |
| LanguageDetector.LongTextUsesThreshold | Sources/Services/LanguageDetector.swift:67-71 | on longer text, reliable exactly when some hypothesis reaches the configured threshold |
| Coordinator.ResolveTargetLanguage | Sources/Core/TranslationCoordinator.swift:142-156 | nil detected gives the preferred target; a detected language never equals the result; a Chinese detection never yields a Chinese target; the target departs from the preferred one only in the both-Chinese case ("en") or the equal non-Chinese case ("zh-Hans") |
| Coordinator.TargetExamples | Sources/Core/TranslationCoordinator.swift:146-155 | the four cases on concrete languages: nil, zh-Hant against zh-Hans, en against en, ja against zh-Hans |
| Coordinator.ResolveService | Sources/Core/TranslationCoordinator.swift:158-168 | Apple exactly when "apple" is preferred and Apple translation is available; OpenAI otherwise |
| Coordinator.TranslationCoordinator.constructor | Sources/Core/TranslationCoordinator.swift:17 | the state starts as idle, with nothing requested |
| Coordinator.TranslationCoordinator.Publish | Sources/Core/TranslationCoordinator.swift:17 | an assignment to `state`, appended to the published log |
| Coordinator.TranslationCoordinator.TranslateSelection | Sources/Core/TranslationCoordinator.swift:28-42 | publishes exactly `SelectionTrace(env)` and requests exactly `SelectionRequests(env)` |
| Coordinator.TranslationCoordinator.OCRAndTranslate | Sources/Core/TranslationCoordinator.swift:45-56 | publishes exactly `OCRTrace(env)` and requests exactly `OCRRequests(env)` |
| Coordinator.TranslationCoordinator.Translate | Sources/Core/TranslationCoordinator.swift:59-89 | publishes exactly `TranslateTrace(env, text)` and requests exactly `TranslateRequests(env, text)` |
| Coordinator.TranslationCoordinator.Dismiss | Sources/Core/TranslationCoordinator.swift:91-93 | from any state the state becomes idle and nothing is requested; a second dismiss therefore leaves it idle |
| Coordinator.TranslationCoordinator.PerformStreamingTranslation | Sources/Core/TranslationCoordinator.swift:97-118 | one request; one streaming state per chunk carrying the text so far; returns the attempt's result, or the stream's error, or `emptyResult` |
| Coordinator.TranslationCoordinator.AttemptFallbackTranslation | Sources/Core/TranslationCoordinator.swift:120-140 | without a non-empty key: only the original error, no request; with one: one OpenAI request, its streaming states, then its outcome |
| Coordinator.ConcatEmptyIff | Sources/Core/TranslationCoordinator.swift:103-108 | the accumulator is empty exactly when every chunk was empty, so chunks may arrive and still give `emptyResult` |
| Coordinator.ConcatPrefix | Sources/Core/TranslationCoordinator.swift:103-105 | the first k chunks joined form a prefix of all chunks joined |
| Coordinator.StreamTraceAt | Sources/Core/TranslationCoordinator.swift:103-107 | one streaming state per chunk; after chunk k the partial is the first k chunks joined, and the source text is the text passed in |
| Coordinator.PartialsGrow | Sources/Core/TranslationCoordinator.swift:103-107 | each partial text extends every earlier partial |
| Coordinator.EmptyStreamFails | Sources/Core/TranslationCoordinator.swift:108-110 | a normally ending stream fails exactly when every chunk was empty, and then with `emptyResult` |
| Coordinator.AttemptSuccess | Sources/Core/TranslationCoordinator.swift:111-117 | a success means the stream did not throw and some chunk was non-empty; the result holds the source text, the full concatenation, the detected language or "unknown", the target and the service's name |
| Coordinator.AfterPrimaryShape | Sources/Core/TranslationCoordinator.swift:73-88 | after the primary stream: a terminal state last, preceded only by fallback streaming states of the same text |
| Coordinator.EmptyTextRejected | Sources/Core/TranslationCoordinator.swift:60-64 | all-whitespace input publishes only `error("Empty text")`, never `translating`, and requests nothing |
| Coordinator.TranslateShape | Sources/Core/TranslationCoordinator.swift:59-89 | other input publishes `translating(trimmed)` first and a terminal state last, with only streaming states of the trimmed text in between |
| Coordinator.TranslateRequestsShape | Sources/Core/TranslationCoordinator.swift:71-88 | one or two requests, the first on the resolved service; two exactly when the fallback runs, the second on OpenAI; every request carries the trimmed text, the detected language and the target |
| Coordinator.PlainErrorIsFinal | Sources/Core/TranslationCoordinator.swift:86-88 | an error without `shouldFallback` ends the run with its message and no second request |
| Coordinator.MissingKeyKeepsOriginalError | Sources/Core/TranslationCoordinator.swift:126-129 | a fallback-worthy error with the key absent or empty ends in the original error's message, with no second request |
| Coordinator.FallbackOutcomeIsFinal | Sources/Core/TranslationCoordinator.swift:131-139 | when the fallback runs, its partials start again from its own first chunk, and its outcome, including a failure's message, is the final state |
| Coordinator.CompletedResult | Sources/Core/TranslationCoordinator.swift:73-85 | a completed state can only be last; its result holds the trimmed text, the target, the detected language or "unknown", and the non-empty full output of either the primary service or, when the fallback ran, OpenAI |
| Coordinator.SelectionWithoutPermission | Sources/Core/TranslationCoordinator.swift:29-32 | without permission: only the permission error, never `grabbing`, nothing requested |
| Coordinator.SelectionWithoutText | Sources/Core/TranslationCoordinator.swift:34-39 | a nil grab gives `grabbing` then the no-selection error, nothing requested |
| Coordinator.SelectionTranslates | Sources/Core/TranslationCoordinator.swift:34-41 | a grabbed text gives `grabbing` then exactly what `translate` publishes and requests |
| Coordinator.OCRFailures | Sources/Core/TranslationCoordinator.swift:46-55 | an `OCRError` gives `grabbing` then `idle`; any other capture error gives the "OCR failed: " message; neither requests anything |
| Coordinator.HelloWorldScenario | Sources/Core/TranslationCoordinator.swift:59-89 | "  hello world  " detected as English, target zh-Hans, OpenAI, chunks 你/好/世界: translating, three growing partials, then the completed result |

## Left out

- The platform recognizer is an oracle parameter. The cap of 5 hypotheses
  it is asked for is a property of that oracle, and no proof here relies
  on it.
- Best: on equal confidences it keeps the earliest hypothesis. The sort
  in the source is not guaranteed stable, so the contract only promises that
  no other hypothesis has a higher confidence, not which of several tied
  languages is reported.
- Confidences and weights are `Double` in the source and `real` here.
  Rounding is not modelled.
- MergeHints: with `Double`, the sum on Portuguese for both "pt" and "pt-BR"
  could depend on the dictionary's iteration order. With `real` it does
  not.
- EffectiveThreshold: Swift's `text.count` counts grapheme clusters. The
  model counts Unicode scalars, which is the same for most text but larger
  for combined characters.
- Text.Trim: the whitespace set is written out as code points, namely the
  Unicode separators, U+0009 to U+000D and U+0085. It is not taken from the
  platform's character tables.
- The hint loop's "code does not map" branch is unreachable.
  `bcp47ToNLLanguage` always returns a language, because the struct's
  raw-value initializer cannot fail. Hints for unusual codes therefore add
  weight to a language of that raw value instead of being ignored.
- The inner "en" branch of the equal-languages case in
  `resolveTargetLanguage` is unreachable, because the both-Chinese case
  before it already returns. The model keeps it as written.
- Async execution, `@MainActor` scheduling and overlapping operations are
  not modelled. Each operation is a sequential run over finite chunk
  sequences, so the accepted overwrite race between a dismissed or
  superseded operation and its late completion is not captured.
- Nothing in the code requires an operation to start from idle or from a
  terminal state, so the model's methods accept any current state.
- `TextSelectionManager`, `ScreenCaptureOCR`, `KeychainHelper`,
  `Defaults`, `PermissionManager` and the backend services are not part of
  this model. Their results are `Environment` fields. The keychain lookup
  reduces to the key's presence and emptiness.
- The `TranslationError` type and the services' names are not part of this
  model. `emptyResult` is a parameter (its description and whether it
  warrants the fallback), and so are the display names.
- A localized description is the error's `Description()`. Messages beyond
  the literal strings set in the coordinator are not modelled.
- An `OCRError` of any kind ends in idle, as the code's `catch is OCRError`
  does. The model does not distinguish a user cancellation from other
  `OCRError` cases.
- The settings views and the accessibility grabber's geometry are not part
  of this model.
