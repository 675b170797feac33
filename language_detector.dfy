/** The language detector's decision logic around the platform recognizer:
    merging the caller's hints into the base weights, ranking the
    recognizer's hypotheses, the short-text threshold rule, the
    reliability gate, and the mapping between BCP 47 codes and the
    recognizer's language identifiers. The recognizer itself is an oracle. */
module LanguageDetector {
  import opened Wrappers

  /** The recognizer's language identifier. Like the platform type it wraps a
      raw string, so two identifiers are equal exactly when their raw values are. */
  datatype NLLanguage = NLLanguage(rawValue: string)

  const English := NLLanguage("en")
  const SimplifiedChinese := NLLanguage("zh-Hans")
  const TraditionalChinese := NLLanguage("zh-Hant")
  const Japanese := NLLanguage("ja")
  const Korean := NLLanguage("ko")
  const French := NLLanguage("fr")
  const German := NLLanguage("de")
  const Spanish := NLLanguage("es")
  const Portuguese := NLLanguage("pt")
  const Russian := NLLanguage("ru")
  const Arabic := NLLanguage("ar")
  const Italian := NLLanguage("it")
  const Thai := NLLanguage("th")
  const Vietnamese := NLLanguage("vi")

  /** The recognizer's constraint list: the 14 supported languages. */
  const SupportedNLLanguages: seq<NLLanguage> := [
    English, SimplifiedChinese, TraditionalChinese, Japanese,
    Korean, French, German, Spanish, Portuguese, Russian,
    Arabic, Italian, Thai, Vietnamese
  ]

  /** The codes the settings screen offers for the same 14 languages, in the same order. */
  const SupportedCodes: seq<string> := [
    "en", "zh-Hans", "zh-Hant", "ja", "ko", "fr", "de",
    "es", "pt-BR", "ru", "ar", "it", "th", "vi"
  ]

  /** Prior weight per supported language. */
  const BaseHints: map<NLLanguage, real> := map[
    English := 1.5,
    SimplifiedChinese := 1.2,
    TraditionalChinese := 0.8,
    Japanese := 0.6,
    Korean := 0.5,
    French := 0.4, Spanish := 0.4, Italian := 0.4,
    Portuguese := 0.3, German := 0.3, Russian := 0.3,
    Arabic := 0.2, Thai := 0.2, Vietnamese := 0.2
  ]

  /** Threshold used by the simple `Detect` entry point. */
  const DefaultThreshold: real := 0.3

  /** Texts of at most this many characters are "short". */
  const ShortTextLength: nat := 5

  /** Minimum effective threshold for short texts. */
  const ShortTextThreshold: real := 0.5

  datatype DetectionResult = DetectionResult(language: Option<string>, confidence: real, isReliable: bool)

  /** A hypothesis after its language has been mapped to a BCP 47 code. */
  datatype Hypothesis = Hypothesis(language: string, confidence: real)

  /** The platform recognizer, configured with constraints and hints and fed
      a text: it yields its hypotheses (language and confidence) in the
      iteration order of the dictionary it returns. */
  type Recognizer = (string, seq<NLLanguage>, map<NLLanguage, real>) -> seq<(NLLanguage, real)>

  // ---------------------------------------------------------------------
  // Code mapping

  /** BCP 47 code to recognizer language. The three special cases are
      spelled out; every other code is taken as the identifier's raw value,
      which always succeeds, so the result is never `None`. */
  function Bcp47ToNLLanguage(code: string): (r: Option<NLLanguage>)
    ensures r.Some?
    ensures code == "pt-BR" ==> r.value == Portuguese
    ensures code != "pt-BR" ==> r.value.rawValue == code
  {
    if code == "zh-Hans" then Some(SimplifiedChinese)
    else if code == "zh-Hant" then Some(TraditionalChinese)
    else if code == "pt-BR" then Some(Portuguese)
    else Some(NLLanguage(code))
  }

  /** Recognizer language to BCP 47 code: Portuguese is reported as
      Brazilian Portuguese, every other language by its raw value. */
  function MapToBCP47(language: NLLanguage): (r: string)
    ensures language == Portuguese ==> r == "pt-BR"
    ensures language != Portuguese ==> r == language.rawValue
  {
    if language == SimplifiedChinese then "zh-Hans"
    else if language == TraditionalChinese then "zh-Hant"
    else if language == Portuguese then "pt-BR"
    else language.rawValue
  }

  /** Mapping a code to a language and back gives the code back, for every
      code except plain "pt", which comes back as "pt-BR". */
  lemma CodeRoundTrip(code: string)
    ensures MapToBCP47(Bcp47ToNLLanguage(code).value) == code <==> code != "pt"
    ensures code == "pt" ==> MapToBCP47(Bcp47ToNLLanguage(code).value) == "pt-BR"
  {
  }

  /** Mapping a language to a code and back gives the language back, for
      every language except one whose raw value is "pt-BR". */
  lemma LanguageRoundTrip(language: NLLanguage)
    ensures Bcp47ToNLLanguage(MapToBCP47(language)) == Some(language) <==> language.rawValue != "pt-BR"
  {
  }

  /** The settings screen's 14 codes map exactly onto the recognizer's 14
      constrained languages, position by position, and each round-trips. */
  lemma SupportedCodesRoundTrip()
    ensures |SupportedCodes| == |SupportedNLLanguages| == 14
    ensures forall i :: 0 <= i < |SupportedCodes| ==>
              Bcp47ToNLLanguage(SupportedCodes[i]) == Some(SupportedNLLanguages[i])
              && MapToBCP47(SupportedNLLanguages[i]) == SupportedCodes[i]
    ensures forall c :: c in SupportedCodes ==> MapToBCP47(Bcp47ToNLLanguage(c).value) == c
  {
    forall c | c in SupportedCodes ensures MapToBCP47(Bcp47ToNLLanguage(c).value) == c {
      CodeRoundTrip(c);
    }
  }

  // ---------------------------------------------------------------------
  // Hint merge

  /** The codes a caller hint can use to reach `language`: exactly those
      that `Bcp47ToNLLanguage` maps to it (see `CodesForIsPreimage`). */
  function CodesFor(language: NLLanguage): set<string> {
    if language.rawValue == "pt-BR" then {}
    else if language == Portuguese then {"pt", "pt-BR"}
    else {language.rawValue}
  }

  lemma CodesForIsPreimage(language: NLLanguage, code: string)
    ensures code in CodesFor(language) <==> Bcp47ToNLLanguage(code) == Some(language)
  {
  }

  /** The weight a hint dictionary adds to `language`, counting only the
      codes in `seen`. No code is counted twice, since `CodesFor` is a set. */
  function AddedWeight(extra: map<string, real>, seen: set<string>, language: NLLanguage): real {
    (if language.rawValue != "pt-BR" && language.rawValue in seen && language.rawValue in extra
     then extra[language.rawValue] else 0.0)
    + (if language == Portuguese && "pt-BR" in seen && "pt-BR" in extra then extra["pt-BR"] else 0.0)
  }

  /** The languages reached by the codes in `seen`. */
  function Reached(seen: set<string>): set<NLLanguage> {
    set code | code in seen :: Bcp47ToNLLanguage(code).value
  }

  function BaseWeight(language: NLLanguage): real {
    if language in BaseHints then BaseHints[language] else 0.0
  }

  /** The hint table after the codes in `seen` have been merged. */
  function PartialHints(extra: map<string, real>, seen: set<string>): map<NLLanguage, real> {
    map language | language in BaseHints.Keys + Reached(seen) ::
      BaseWeight(language) + AddedWeight(extra, seen, language)
  }

  /** The merged hint table: the base weights, with every caller hint added
      to the weight of the language its code maps to (0 when that language
      has no base weight). */
  function MergedHints(extra: Option<map<string, real>>): map<NLLanguage, real> {
    match extra
    case None => BaseHints
    case Some(e) => PartialHints(e, e.Keys)
  }

  /** Without caller hints the merged table is the base table. */
  lemma NoHintsKeepBase()
    ensures MergedHints(None) == BaseHints
  {
  }

  /** A caller hint lands on the language its code maps to and adds its
      weight to that language's base weight (0 when it has none), when it is
      the only hint for that language. */
  lemma MergedHintsAdd(extra: map<string, real>, code: string)
    requires code in extra
    requires forall c :: c in extra && c != code ==> Bcp47ToNLLanguage(c) != Bcp47ToNLLanguage(code)
    ensures var language := Bcp47ToNLLanguage(code).value;
            && language in MergedHints(Some(extra))
            && MergedHints(Some(extra))[language] == BaseWeight(language) + extra[code]
  {
    var language := Bcp47ToNLLanguage(code).value;
    assert language in Reached(extra.Keys);
  }

  /** Hints for "pt" and "pt-BR" both land on Portuguese and add up. */
  lemma MergedHintsPortuguese(extra: map<string, real>)
    requires "pt" in extra && "pt-BR" in extra
    ensures Portuguese in MergedHints(Some(extra))
    ensures MergedHints(Some(extra))[Portuguese] == 0.3 + extra["pt"] + extra["pt-BR"]
  {
  }

  /** The merged table's languages: the base languages and those reached by
      a caller hint. */
  lemma MergedHintsKeys(extra: map<string, real>)
    ensures MergedHints(Some(extra)).Keys == BaseHints.Keys + Reached(extra.Keys)
  {
  }

  /** A language that no caller hint reaches keeps its base weight, and is in
      the merged table exactly when it is in the base table. */
  lemma MergedHintsUntouched(extra: map<string, real>, language: NLLanguage)
    requires forall c :: c in extra ==> Bcp47ToNLLanguage(c) != Some(language)
    ensures language in MergedHints(Some(extra)) <==> language in BaseHints
    ensures language in BaseHints ==> MergedHints(Some(extra))[language] == BaseHints[language]
  {
  }

  /** `m[key, default: 0] += weight`. */
  function AddWithDefault(m: map<NLLanguage, real>, key: NLLanguage, weight: real): (r: map<NLLanguage, real>)
    ensures r.Keys == m.Keys + {key}
    ensures r[key] == (if key in m then m[key] else 0.0) + weight
    ensures forall k :: k in m && k != key ==> r[k] == m[k]
  {
    m[key := (if key in m then m[key] else 0.0) + weight]
  }

  /** Before any caller hint is merged the table is the base table. */
  lemma PartialHintsEmpty(extra: map<string, real>)
    ensures PartialHints(extra, {}) == BaseHints
  {
    assert Reached({}) == {};
  }

  lemma ReachedStep(seen: set<string>, code: string)
    ensures Reached(seen + {code}) == Reached(seen) + {Bcp47ToNLLanguage(code).value}
  {
    var language := Bcp47ToNLLanguage(code).value;
    assert language in Reached(seen + {code});
    forall l | l in Reached(seen + {code}) ensures l in Reached(seen) + {language} {
      var c :| c in seen + {code} && Bcp47ToNLLanguage(c).value == l;
      if c != code { assert c in seen; }
    }
  }

  /** Counting one more code adds its weight to the language it maps to, and
      nothing to any other language. */
  lemma AddedWeightStep(extra: map<string, real>, seen: set<string>, code: string, l: NLLanguage)
    requires code in extra && code !in seen
    ensures AddedWeight(extra, seen + {code}, l)
            == AddedWeight(extra, seen, l) + (if Bcp47ToNLLanguage(code) == Some(l) then extra[code] else 0.0)
  {
    CodesForIsPreimage(l, code);
  }

  /** Merging one more code into a partial table adds that code's weight to
      the language it maps to and leaves every other entry alone. */
  lemma MergeStep(extra: map<string, real>, seen: set<string>, code: string)
    requires code in extra && code !in seen
    ensures PartialHints(extra, seen + {code})
            == AddWithDefault(PartialHints(extra, seen), Bcp47ToNLLanguage(code).value, extra[code])
  {
    var after := PartialHints(extra, seen + {code});
    var expected := AddWithDefault(PartialHints(extra, seen), Bcp47ToNLLanguage(code).value, extra[code]);
    MergeStepKeys(extra, seen, code);
    forall l | l in after.Keys ensures after[l] == expected[l] {
      MergeStepAt(extra, seen, code, l);
    }
  }

  lemma MergeStepKeys(extra: map<string, real>, seen: set<string>, code: string)
    ensures PartialHints(extra, seen + {code}).Keys
            == PartialHints(extra, seen).Keys + {Bcp47ToNLLanguage(code).value}
  {
    ReachedStep(seen, code);
  }

  lemma MergeStepAt(extra: map<string, real>, seen: set<string>, code: string, l: NLLanguage)
    requires code in extra && code !in seen
    requires l in BaseHints.Keys + Reached(seen + {code})
    ensures PartialHints(extra, seen + {code})[l]
            == AddWithDefault(PartialHints(extra, seen), Bcp47ToNLLanguage(code).value, extra[code])[l]
  {
    ReachedStep(seen, code);
    AddedWeightStep(extra, seen, code, l);
    if l !in PartialHints(extra, seen) {
      AddedWeightNone(extra, seen, l);
    }
  }

  /** A language outside the table has received no weight yet. */
  lemma AddedWeightNone(extra: map<string, real>, seen: set<string>, language: NLLanguage)
    requires language !in Reached(seen)
    ensures AddedWeight(extra, seen, language) == 0.0
  {
    assert Bcp47ToNLLanguage(language.rawValue).value == language || language.rawValue == "pt-BR"
      || language.rawValue == "zh-Hans" || language.rawValue == "zh-Hant";
    assert language == Portuguese ==> Bcp47ToNLLanguage("pt-BR").value == language;
  }

  /** `hints[nlLang, default: 0] += weight` for every caller hint, in the
      dictionary's (unspecified) iteration order. */
  method MergeHints(preferredSourceHints: Option<map<string, real>>) returns (hints: map<NLLanguage, real>)
    ensures hints == MergedHints(preferredSourceHints)
  {
    hints := BaseHints;
    if preferredSourceHints.Some? {
      var extra := preferredSourceHints.value;
      var pending := extra.Keys;
      ghost var seen: set<string> := {};
      PartialHintsEmpty(extra);
      while pending != {}
        invariant seen + pending == extra.Keys && seen !! pending
        invariant hints == PartialHints(extra, seen)
        decreases pending
      {
        var code :| code in pending;
        var nlLang := Bcp47ToNLLanguage(code);
        if nlLang.Some? {
          var language := nlLang.value;
          hints := AddWithDefault(hints, language, extra[code]);
        }
        MergeStep(extra, seen, code);
        seen, pending := seen + {code}, pending - {code};
      }
    }
  }

  // ---------------------------------------------------------------------
  // Ranking and the reliability gate

  /** The recognizer's hypotheses with their languages mapped to BCP 47 codes, in order. */
  function Ranked(hypotheses: seq<(NLLanguage, real)>): (r: seq<Hypothesis>)
    ensures |r| == |hypotheses|
    ensures forall i :: 0 <= i < |r| ==>
              r[i] == Hypothesis(MapToBCP47(hypotheses[i].0), hypotheses[i].1)
  {
    seq(|hypotheses|, i requires 0 <= i < |hypotheses| =>
      Hypothesis(MapToBCP47(hypotheses[i].0), hypotheses[i].1))
  }

  /** The first entry of the list sorted by descending confidence: a
      hypothesis whose confidence no other hypothesis exceeds, or `None` for
      an empty list. */
  function Best(hypotheses: seq<Hypothesis>): (r: Option<Hypothesis>)
    ensures r.None? <==> hypotheses == []
    ensures r.Some? ==> r.value in hypotheses
    ensures r.Some? ==> forall i :: 0 <= i < |hypotheses| ==> hypotheses[i].confidence <= r.value.confidence
  {
    if hypotheses == [] then None
    else
      match Best(hypotheses[1..])
      case None => Some(hypotheses[0])
      case Some(rest) =>
        if hypotheses[0].confidence >= rest.confidence then Some(hypotheses[0]) else Some(rest)
  }

  /** The reliability threshold in force for `text`: raised to at least 0.5
      for texts of at most five characters, the given threshold otherwise. */
  function EffectiveThreshold(text: string, threshold: real): (t: real)
    ensures t >= threshold
    ensures |text| <= ShortTextLength ==> t >= ShortTextThreshold && (t == threshold || t == ShortTextThreshold)
    ensures |text| > ShortTextLength ==> t == threshold
  {
    if |text| <= ShortTextLength then
      (if threshold >= ShortTextThreshold then threshold else ShortTextThreshold)
    else threshold
  }

  /** The detection result for the recognizer's hypotheses: no hypotheses
      give (no language, 0, unreliable); otherwise the best hypothesis's
      confidence is reported, and its language only when that confidence
      reaches the effective threshold. */
  function Decide(text: string, threshold: real, hypotheses: seq<(NLLanguage, real)>): (r: DetectionResult)
    ensures hypotheses == [] ==> r == DetectionResult(None, 0.0, false)
    ensures r.language.Some? <==> r.isReliable
    ensures r.isReliable <==> hypotheses != [] && r.confidence >= EffectiveThreshold(text, threshold)
    ensures hypotheses != [] ==> exists i :: 0 <= i < |hypotheses| && hypotheses[i].1 == r.confidence
    ensures forall i :: 0 <= i < |hypotheses| ==> hypotheses[i].1 <= r.confidence
    ensures r.language.Some? ==>
              exists i :: 0 <= i < |hypotheses|
                          && MapToBCP47(hypotheses[i].0) == r.language.value && hypotheses[i].1 == r.confidence
  {
    var ranked := Ranked(hypotheses);
    match Best(ranked)
    case None => DetectionResult(None, 0.0, false)
    case Some(best) =>
      var i :| 0 <= i < |ranked| && ranked[i] == best;
      assert forall j :: 0 <= j < |hypotheses| ==> hypotheses[j].1 == ranked[j].confidence;
      var reliable := best.confidence >= EffectiveThreshold(text, threshold);
      DetectionResult(if reliable then Some(best.language) else None, best.confidence, reliable)
  }

  /** What `detectWithConfidence` returns for a text, a threshold, optional
      caller hints and a recognizer. */
  function Detection(text: string, threshold: real, preferredSourceHints: Option<map<string, real>>,
                     recognizer: Recognizer): DetectionResult
  {
    Decide(text, threshold, recognizer(text, SupportedNLLanguages, MergedHints(preferredSourceHints)))
  }

  /** Full detection: merge the hints, run the recognizer constrained to the
      14 supported languages, and gate its best hypothesis. */
  method DetectWithConfidence(text: string, threshold: real, preferredSourceHints: Option<map<string, real>>,
                              recognizer: Recognizer) returns (result: DetectionResult)
    ensures result == Detection(text, threshold, preferredSourceHints, recognizer)
    ensures result.language.Some? <==> result.isReliable
  {
    var hints := MergeHints(preferredSourceHints);
    var hypotheses := recognizer(text, SupportedNLLanguages, hints);
    result := Decide(text, threshold, hypotheses);
  }

  /** Simple detection: the language of a full detection at threshold 0.3
      without caller hints. */
  method Detect(text: string, recognizer: Recognizer) returns (language: Option<string>)
    ensures language == Detection(text, DefaultThreshold, None, recognizer).language
  {
    var result := DetectWithConfidence(text, DefaultThreshold, None, recognizer);
    language := result.language;
  }

  /** On a text of at most five characters no hypothesis below 0.5 is
      reliable, whatever the configured threshold. */
  lemma ShortTextNeedsHalf(text: string, threshold: real, hypotheses: seq<(NLLanguage, real)>)
    requires |text| <= ShortTextLength
    requires forall i :: 0 <= i < |hypotheses| ==> hypotheses[i].1 < ShortTextThreshold
    ensures Decide(text, threshold, hypotheses).language == None
    ensures !Decide(text, threshold, hypotheses).isReliable
  {
  }

  /** A confidence of 0.4 on a short text at threshold 0.3 is unreliable,
      and the confidence is still reported. */
  lemma ShortTextExample(text: string, language: NLLanguage)
    requires |text| <= ShortTextLength
    ensures Decide(text, 0.3, [(language, 0.4)]) == DetectionResult(None, 0.4, false)
  {
  }

  /** On a longer text the configured threshold is used as it is. */
  lemma LongTextUsesThreshold(text: string, threshold: real, hypotheses: seq<(NLLanguage, real)>)
    requires |text| > ShortTextLength && hypotheses != []
    ensures Decide(text, threshold, hypotheses).isReliable
            <==> exists i :: 0 <= i < |hypotheses| && hypotheses[i].1 >= threshold
  {
  }
}
