/** The constant tables of the service configuration: the named guardrails
    and the per-validator settings. */
module ConfigTables {
  import opened Wrappers
  import opened Values
  import opened Verdicts

  const GuardrailConfigs: ConfigTable := [
    ("default", GuardrailConfig("Default guardrail with basic NLP validation", Some([
      Entry("length_check", "exception").(maxLength := Some(1000),
        description := Some("Validates text length does not exceed maximum")),
      Entry("toxicity_check", "exception").(threshold := Some(0.7),
        description := Some("Detects toxic content using ML models")),
      Entry("sentiment_check", "log").(threshold := Some(-0.5),
        description := Some("Checks for overly negative sentiment"))]))),
    ("strict", GuardrailConfig("Strict content moderation for sensitive applications", Some([
      Entry("length_check", "exception").(maxLength := Some(500), description := Some("Strict length limits")),
      Entry("toxicity_check", "exception").(threshold := Some(0.3),
        description := Some("Very sensitive toxicity detection")),
      Entry("sentiment_check", "exception").(threshold := Some(-0.3),
        description := Some("Strict sentiment requirements")),
      Entry("pii_detection", "filter").(
        description := Some("Detects and redacts personally identifiable information"))]))),
    ("permissive", GuardrailConfig("Permissive content validation for open platforms", Some([
      Entry("length_check", "log").(maxLength := Some(2000), description := Some("Basic length validation")),
      Entry("toxicity_check", "log").(threshold := Some(0.9),
        description := Some("Only flag extremely toxic content"))]))),
    ("content_moderation", GuardrailConfig("Comprehensive content moderation", Some([
      Entry("length_check", "exception").(maxLength := Some(1500), description := Some("Text length validation")),
      Entry("toxicity_check", "exception").(threshold := Some(0.5),
        description := Some("Moderate toxicity detection")),
      Entry("sentiment_check", "log").(threshold := Some(-0.4), description := Some("Sentiment analysis")),
      Entry("pii_detection", "filter").(description := Some("PII detection and redaction"))]))),
    ("customer_service", GuardrailConfig("Guardrails for customer service applications", Some([
      Entry("length_check", "exception").(maxLength := Some(3000),
        description := Some("Allow longer customer messages")),
      Entry("toxicity_check", "log").(threshold := Some(0.6), description := Some("Detect customer frustration")),
      Entry("sentiment_check", "log").(threshold := Some(-0.6),
        description := Some("Monitor customer satisfaction")),
      Entry("pii_detection", "filter").(description := Some("Protect customer privacy"))])))
  ]

  const ValidatorConfigs: Value := Dict([
    ("length_check", Dict([
      ("default_max_length", Int(1000)),
      ("absolute_max_length", Int(10000))])),
    ("toxicity_check", Dict([
      ("default_threshold", Real(0.7)),
      ("model_options", StrList([
        "unitary/toxic-bert",
        "facebook/roberta-hate-speech-dynabench-r4-target",
        "microsoft/DialoGPT-medium"]))])),
    ("sentiment_check", Dict([
      ("default_threshold", Real(-0.5)),
      ("model_options", StrList([
        "cardiffnlp/twitter-roberta-base-sentiment-latest",
        "nlptown/bert-base-multilingual-uncased-sentiment",
        "distilbert-base-uncased-finetuned-sst-2-english"]))])),
    ("pii_detection", Dict([
      ("spacy_entities", StrList(["PERSON", "ORG", "GPE", "EMAIL", "PHONE"])),
      ("redaction_patterns", Dict([
        ("PERSON", Str("[PERSON_REDACTED]")),
        ("ORG", Str("[ORGANIZATION_REDACTED]")),
        ("GPE", Str("[LOCATION_REDACTED]")),
        ("EMAIL", Str("[EMAIL_REDACTED]")),
        ("PHONE", Str("[PHONE_REDACTED]"))]))]))
  ])

  /** `v[k1][k2]...`, or `None` where a key is missing or a value is not a dict. */
  function Path(v: Value, keys: seq<string>): Option<Value>
    decreases |keys|
  {
    if keys == [] then Some(v)
    else if !v.Dict? then None
    else match Get(v.entries, keys[0])
      case None => None
      case Some(w) => Path(w, keys[1..])
  }

  function Names(table: ConfigTable): (r: seq<string>)
    ensures |r| == |table|
  {
    seq(|table|, i requires 0 <= i < |table| => table[i].0)
  }

  predicate Distinct(xs: seq<string>)
  {
    forall i, j :: 0 <= i < j < |xs| ==> xs[i] != xs[j]
  }

  /** The names of a validator list, `""` for an entry without one. */
  function EntryNames(entries: seq<ValidatorEntry>): (r: seq<string>)
    ensures |r| == |entries|
  {
    seq(|entries|, i requires 0 <= i < |entries| => entries[i].name.GetOr(""))
  }

  /** What every entry of a well-formed table looks like. */
  predicate WellFormedEntry(e: ValidatorEntry, absoluteMax: int)
  {
    && e.name.Some? && e.onFail.Some?
    && e.onFail.value in {"exception", "log", "filter"}
    && (e.name.value == "length_check" ==> e.maxLength.Some? && 0 < e.maxLength.value <= absoluteMax)
  }

  predicate WellFormedTable(table: ConfigTable, absoluteMax: int)
  {
    && Distinct(Names(table))
    && Lookup(table, "default").Some?
    && forall i :: 0 <= i < |table| ==>
         && table[i].1.validators.Some?
         && Distinct(EntryNames(table[i].1.validators.value))
         && forall j :: 0 <= j < |table[i].1.validators.value| ==>
              WellFormedEntry(table[i].1.validators.value[j], absoluteMax)
  }

  /** The guardrail table has a "default" entry, which every fallback relies
      on; guardrail names are distinct; every validator entry has a name and
      an on_fail among exception, log and filter; no guardrail lists a
      validator twice; and every length limit, the configured default
      included, is positive and at most the configured absolute maximum. */
  lemma GuardrailConfigsWellFormed()
    ensures Path(ValidatorConfigs, ["length_check", "absolute_max_length"]) == Some(Int(10000))
    ensures WellFormedTable(GuardrailConfigs, 10000)
    ensures var default := Path(ValidatorConfigs, ["length_check", "default_max_length"]);
            default.Some? && default.value.Int? && 0 < default.value.i <= 10000
  {
  }

  /** The PII settings give exactly one redaction text per spaCy entity label. */
  lemma RedactionPatternsMatchEntities()
    ensures Path(ValidatorConfigs, ["pii_detection", "spacy_entities"]).Some?
    ensures Path(ValidatorConfigs, ["pii_detection", "redaction_patterns"]).Some?
    ensures var labels := Path(ValidatorConfigs, ["pii_detection", "spacy_entities"]).value;
            var patterns := Path(ValidatorConfigs, ["pii_detection", "redaction_patterns"]).value;
            && labels.List? && patterns.Dict?
            && |labels.items| == |patterns.entries|
            && Distinct(Keys(patterns.entries))
            && forall i :: 0 <= i < |labels.items| ==>
                 labels.items[i].Str? && Get(patterns.entries, labels.items[i].s).Some?
  {
  }
}
