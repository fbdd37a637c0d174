/** The NLP validators shared by the FastAPI service and its enhanced
    successor, and the reference meaning of one validation run: resolve the
    guardrail, plan one check per recognised entry, run the checks on the
    input text, and merge the verdicts. Model inference is an input. */
module NlpChecks {
  import opened Wrappers
  import opened Text
  import opened Verdicts

  /** What a classifier said for a given threshold, or the exception its
      loading or inference raised. */
  datatype ModelVerdict = Flagged | Clean | Raised(error: string)

  /** A named entity found by the spaCy pipeline; `kind` is its label. */
  datatype Entity = Entity(kind: string, text: string)

  /** The model outputs for one input text. */
  datatype Inference = Inference(
    toxicity: real -> ModelVerdict,
    sentiment: real -> ModelVerdict,
    entities: Result<seq<Entity>, string>)

  /** The `toxicity_check` validator; a raised exception becomes a failure. */
  function ValidateToxicity(v: ModelVerdict): (r: ValidatorResult)
    ensures r.validatorName == "toxicity_check" && r.onFailAction == "exception"
    ensures r.status == Pass <==> v.Clean?
    ensures r.metadata == None
    ensures v.Raised? ==> r.message == "Toxicity validation error: " + v.error
  {
    match v
    case Flagged => ValidatorResult("toxicity_check", Fail, "Toxicity detected", "exception", None)
    case Clean => ValidatorResult("toxicity_check", Pass, "No toxicity detected", "exception", None)
    case Raised(e) =>
      ValidatorResult("toxicity_check", Fail, "Toxicity validation error: " + e, "exception", None)
  }

  /** The `sentiment_check` validator; a raised exception becomes a failure. */
  function ValidateSentiment(v: ModelVerdict): (r: ValidatorResult)
    ensures r.validatorName == "sentiment_check" && r.onFailAction == "log"
    ensures r.status == Pass <==> v.Clean?
    ensures r.metadata == None
    ensures v.Raised? ==> r.message == "Sentiment validation error: " + v.error
  {
    match v
    case Flagged => ValidatorResult("sentiment_check", Fail, "Negative sentiment detected", "log", None)
    case Clean => ValidatorResult("sentiment_check", Pass, "Sentiment is acceptable", "log", None)
    case Raised(e) =>
      ValidatorResult("sentiment_check", Fail, "Sentiment validation error: " + e, "log", None)
  }

  /** The entity labels the PII check treats as personal data. */
  const PiiLabels: seq<string> := ["PERSON", "ORG", "GPE", "EMAIL", "PHONE"]

  predicate IsPii(e: Entity)
  {
    e.kind in PiiLabels
  }

  /** The PII entities among `ents`, in document order. */
  function PiiEntities(ents: seq<Entity>): seq<Entity>
  {
    if ents == [] then []
    else PiiEntities(ents[..|ents| - 1]) + (if IsPii(ents[|ents| - 1]) then [ents[|ents| - 1]] else [])
  }

  /** The text after replacing, one entity after another, each entity's text
      by "[LABEL_REDACTED]". */
  function RedactEntities(text: string, ents: seq<Entity>): string
  {
    if ents == [] then text
    else
      var e := ents[|ents| - 1];
      ReplaceAll(RedactEntities(text, ents[..|ents| - 1]), e.text, "[" + e.kind + "_REDACTED]")
  }

  /** "LABEL: text" for each entity. */
  function Descriptions(ents: seq<Entity>): (r: seq<string>)
    ensures |r| == |ents|
  {
    seq(|ents|, i requires 0 <= i < |ents| => ents[i].kind + ": " + ents[i].text)
  }

  /** What `validate_pii` returns for the entity list `doc` (or the
      exception raised while producing it). */
  function PiiVerdict(text: string, doc: Result<seq<Entity>, string>): ValidatorResult
  {
    match doc
    case Err(e) => ValidatorResult("pii_detection", Fail, "PII validation error: " + e, "filter", None)
    case Ok(ents) =>
      var found := PiiEntities(ents);
      if found == [] then ValidatorResult("pii_detection", Pass, "No PII detected", "filter", None)
      else
        ValidatorResult("pii_detection", Fail, "PII detected: " + Join(", ", Descriptions(found)), "filter",
                        Some(PiiMetadata(RedactEntities(text, found), Descriptions(found))))
  }

  /** The `pii_detection` validator: walks the entities, collecting the PII
      ones and redacting the text as it goes. */
  method ValidatePii(text: string, doc: Result<seq<Entity>, string>) returns (r: ValidatorResult)
    ensures r == PiiVerdict(text, doc)
  {
    if doc.Err? {
      return ValidatorResult("pii_detection", Fail, "PII validation error: " + doc.error, "filter", None);
    }
    var ents := doc.value;
    var piiEntities: seq<string> := [];
    var redacted := text;
    ghost var found: seq<Entity> := [];
    var i := 0;
    while i < |ents|
      invariant 0 <= i <= |ents|
      invariant found == PiiEntities(ents[..i])
      invariant piiEntities == Descriptions(found)
      invariant redacted == RedactEntities(text, found)
    {
      var ent := ents[i];
      assert ents[..i + 1][..i] == ents[..i];
      if ent.kind in PiiLabels {
        piiEntities := piiEntities + [ent.kind + ": " + ent.text];
        redacted := ReplaceAll(redacted, ent.text, "[" + ent.kind + "_REDACTED]");
        ghost var before := found;
        found := found + [ent];
        assert found[..|found| - 1] == before;
      }
      i := i + 1;
    }
    assert ents[..|ents|] == ents;
    if piiEntities != [] {
      r := ValidatorResult("pii_detection", Fail, "PII detected: " + Join(", ", piiEntities), "filter",
                           Some(PiiMetadata(redacted, piiEntities)));
    } else {
      r := ValidatorResult("pii_detection", Pass, "No PII detected", "filter", None);
    }
  }

  lemma {:induction false} PiiEntitiesEmpty(ents: seq<Entity>)
    ensures PiiEntities(ents) == [] <==> forall i :: 0 <= i < |ents| ==> !IsPii(ents[i])
  {
    if ents != [] {
      var init := ents[..|ents| - 1];
      PiiEntitiesEmpty(init);
      assert forall i :: 0 <= i < |init| ==> init[i] == ents[i];
    }
  }

  /** Every entity kept is a PII entity of the document. */
  lemma {:induction false} PiiEntitiesSound(ents: seq<Entity>)
    ensures forall e :: e in PiiEntities(ents) ==> IsPii(e) && e in ents
  {
    if ents != [] {
      var init := ents[..|ents| - 1];
      PiiEntitiesSound(init);
      assert forall e :: e in init ==> e in ents;
    }
  }

  /** `validate_pii` fails exactly when entity extraction raised or some
      entity carries a PII label; when it fails on entities it attaches the
      text with those entities redacted in document order. */
  lemma PiiVerdictMeaning(text: string, doc: Result<seq<Entity>, string>)
    ensures PiiVerdict(text, doc).validatorName == "pii_detection"
    ensures PiiVerdict(text, doc).status == Fail <==>
              doc.Err? || exists i :: 0 <= i < |doc.value| && IsPii(doc.value[i])
    ensures PiiVerdict(text, doc).metadata.Some? <==>
              doc.Ok? && exists i :: 0 <= i < |doc.value| && IsPii(doc.value[i])
    ensures PiiVerdict(text, doc).metadata.Some? ==>
              PiiVerdict(text, doc).metadata.value.redactedText == RedactEntities(text, PiiEntities(doc.value))
  {
    if doc.Ok? {
      PiiEntitiesEmpty(doc.value);
    }
  }

  /** The checks the validation run knows. */
  datatype Check = LengthCheck(maxLength: int) | ToxicityCheck(threshold: real) | SentimentCheck(threshold: real) | PiiCheck

  /** A check to run and the `on_fail` action its entry configures. */
  datatype Task = Task(check: Check, onFail: string)

  function CheckName(c: Check): string
  {
    match c
    case LengthCheck(_) => "length_check"
    case ToxicityCheck(_) => "toxicity_check"
    case SentimentCheck(_) => "sentiment_check"
    case PiiCheck => "pii_detection"
  }

  predicate Known(name: string)
  {
    name == "length_check" || name == "toxicity_check" || name == "sentiment_check" || name == "pii_detection"
  }

  /** The check an entry named `name` asks for, with the defaults
      max_length 1000, toxicity threshold 0.7 and sentiment threshold -0.5;
      `None` for a name no validator handles. */
  function CheckOf(name: string, e: ValidatorEntry): (r: Option<Check>)
    ensures r.Some? <==> Known(name)
    ensures r.Some? ==> CheckName(r.value) == name
  {
    if name == "length_check" then Some(LengthCheck(e.maxLength.GetOr(1000)))
    else if name == "toxicity_check" then Some(ToxicityCheck(e.threshold.GetOr(0.7)))
    else if name == "sentiment_check" then Some(SentimentCheck(e.threshold.GetOr(-0.5)))
    else if name == "pii_detection" then Some(PiiCheck)
    else None
  }

  /** The first loop of a validation run: read each entry's name and
      on_fail (a missing one raises `KeyError`), and keep a task for every
      recognised name. */
  function Plan(entries: seq<ValidatorEntry>): Result<seq<Task>, Error>
  {
    if entries == [] then Ok([])
    else
      var tasks :- Plan(entries[..|entries| - 1]);
      var keys :- EntryKeys(entries[|entries| - 1]);
      match CheckOf(keys.0, entries[|entries| - 1])
      case None => Ok(tasks)
      case Some(c) => Ok(tasks + [Task(c, keys.1)])
  }

  /** Once a prefix of the entries raises, the whole plan raises the same error. */
  lemma {:induction false} PlanPrefixError(entries: seq<ValidatorEntry>, i: nat)
    requires i <= |entries| && Plan(entries[..i]).Err?
    ensures Plan(entries) == Plan(entries[..i])
    decreases |entries| - i
  {
    if i < |entries| {
      var next := entries[..i + 1];
      assert next[..|next| - 1] == entries[..i];
      PlanPrefixError(entries, i + 1);
    } else {
      assert entries[..i] == entries;
    }
  }

  /** The entries with a recognised name, in configuration order. */
  function Recognised(entries: seq<ValidatorEntry>): seq<ValidatorEntry>
  {
    if entries == [] then []
    else
      var e := entries[|entries| - 1];
      Recognised(entries[..|entries| - 1]) + (if e.name.Some? && Known(e.name.value) then [e] else [])
  }

  /** Planning raises exactly when some entry lacks `name` or `on_fail`;
      otherwise there is one task per recognised entry, in order, naming that
      entry's check and carrying its `on_fail`. */
  lemma {:induction false} PlanMeaning(entries: seq<ValidatorEntry>)
    ensures Plan(entries).Ok? <==> forall i :: 0 <= i < |entries| ==> EntryKeys(entries[i]).Ok?
    ensures Plan(entries).Ok? ==>
              var tasks := Plan(entries).value;
              var rec := Recognised(entries);
              && |tasks| == |rec|
              && forall i :: 0 <= i < |tasks| ==>
                   rec[i].name == Some(CheckName(tasks[i].check)) && rec[i].onFail == Some(tasks[i].onFail)
  {
    if entries != [] {
      var init := entries[..|entries| - 1];
      PlanMeaning(init);
      assert forall i :: 0 <= i < |init| ==> init[i] == entries[i];
    }
  }

  function RunCheck(c: Check, text: string, inf: Inference): (r: ValidatorResult)
    ensures r.validatorName == CheckName(c)
    ensures r.metadata.Some? ==> c.PiiCheck?
  {
    match c
    case LengthCheck(m) => ValidateLength(text, m)
    case ToxicityCheck(t) => ValidateToxicity(inf.toxicity(t))
    case SentimentCheck(t) => ValidateSentiment(inf.sentiment(t))
    case PiiCheck => PiiVerdict(text, inf.entities)
  }

  /** A task's result, with its `on_fail_action` overwritten from the entry. */
  function Outcome(t: Task, text: string, inf: Inference): ValidatorResult
  {
    RunCheck(t.check, text, inf).(onFailAction := t.onFail)
  }

  /** All checks run on the original text, results in task order. */
  function Outcomes(tasks: seq<Task>, text: string, inf: Inference): (r: seq<ValidatorResult>)
    ensures |r| == |tasks|
  {
    seq(|tasks|, i requires 0 <= i < |tasks| => Outcome(tasks[i], text, inf))
  }

  /** A result that rewrites the text: a failure carrying a redacted text. */
  predicate Rewrites(r: ValidatorResult)
  {
    r.status == Fail && r.metadata.Some?
  }

  /** The running `processed_text`: the redacted text of the last result
      that carries one, or the input. */
  function LastRedaction(text: string, rs: seq<ValidatorResult>): string
  {
    if rs == [] then text
    else if Rewrites(rs[|rs| - 1]) then rs[|rs| - 1].metadata.value.redactedText
    else LastRedaction(text, rs[..|rs| - 1])
  }

  /** With no rewriting result the text stays as it was. */
  lemma {:induction false} LastRedactionUnchanged(text: string, rs: seq<ValidatorResult>)
    requires forall i :: 0 <= i < |rs| ==> !Rewrites(rs[i])
    ensures LastRedaction(text, rs) == text
  {
    if rs != [] {
      var init := rs[..|rs| - 1];
      assert forall i :: 0 <= i < |init| ==> init[i] == rs[i];
      LastRedactionUnchanged(text, init);
    }
  }

  /** Otherwise the last rewriting result, in order, decides the text. */
  lemma {:induction false} LastRedactionLastWins(text: string, rs: seq<ValidatorResult>, j: nat)
    requires j < |rs| && Rewrites(rs[j])
    requires forall k :: j < k < |rs| ==> !Rewrites(rs[k])
    ensures LastRedaction(text, rs) == rs[j].metadata.value.redactedText
  {
    if j < |rs| - 1 {
      var init := rs[..|rs| - 1];
      assert forall i :: 0 <= i < |init| ==> init[i] == rs[i];
      LastRedactionLastWins(text, init, j);
    }
  }

  /** How one more result extends the running flags of a validation loop. */
  lemma AppendResult(text: string, rs: seq<ValidatorResult>, x: ValidatorResult)
    ensures AllPassed(rs + [x]) == (AllPassed(rs) && x.status == Pass)
    ensures LastRedaction(text, rs + [x]) ==
              if Rewrites(x) then x.metadata.value.redactedText else LastRedaction(text, rs)
  {
    assert (rs + [x])[..|rs|] == rs;
  }

  /** How one more task extends the results. */
  lemma AppendTask(tasks: seq<Task>, t: Task, text: string, inf: Inference)
    ensures Outcomes(tasks + [t], text, inf) == Outcomes(tasks, text, inf) + [Outcome(t, text, inf)]
  {
  }

  /** How one more entry extends a plan that has not raised. */
  lemma PlanStep(entries: seq<ValidatorEntry>, i: nat)
    requires i < |entries| && Plan(entries[..i]).Ok?
    ensures EntryKeys(entries[i]).Err? ==> Plan(entries[..i + 1]) == Err(EntryKeys(entries[i]).error)
    ensures EntryKeys(entries[i]).Ok? ==>
              var keys := EntryKeys(entries[i]).value;
              Plan(entries[..i + 1]) ==
                match CheckOf(keys.0, entries[i])
                case None => Plan(entries[..i])
                case Some(c) => Ok(Plan(entries[..i]).value + [Task(c, keys.1)])
  {
    var next := entries[..i + 1];
    assert next[..i] == entries[..i] && next[i] == entries[i];
  }

  /** The response of a run that did not raise. */
  function Merge(text: string, rs: seq<ValidatorResult>): Response
  {
    Response(Success, "Validation completed successfully", AllPassed(rs), rs, Reported(text, LastRedaction(text, rs)))
  }

  /** The reference meaning of `validate_text_with_guardrails` in both
      FastAPI services, leaving the cache aside. */
  function Evaluate(table: ConfigTable, text: string, name: string, inf: Inference): Response
  {
    match Resolve(table, name)
    case Err(e) => InternalError(e)
    case Ok(cfg) =>
      match cfg.validators
      case None => InternalError(KeyError("validators"))
      case Some(entries) =>
        match Plan(entries)
        case Err(e) => InternalError(e)
        case Ok(tasks) => Merge(text, Outcomes(tasks, text, inf))
  }

  /** A run that raises reports failure, invalid, no results and no text. */
  lemma EvaluateErrorPath(table: ConfigTable, text: string, name: string, inf: Inference)
    ensures var r := Evaluate(table, text, name, inf);
            r.status == Failure ==> !r.valid && r.validations == [] && r.processedText == None
    ensures var r := Evaluate(table, text, name, inf);
            r.status == Failure <==>
              || Lookup(table, "default").None?
              || Resolve(table, name).value.validators.None?
              || exists i :: 0 <= i < |Resolve(table, name).value.validators.value| &&
                   EntryKeys(Resolve(table, name).value.validators.value[i]).Err?
  {
    if Resolve(table, name).Ok? && Resolve(table, name).value.validators.Some? {
      PlanMeaning(Resolve(table, name).value.validators.value);
    }
  }

  /** An unknown guardrail name is validated exactly as "default". */
  lemma EvaluateUnknownName(table: ConfigTable, text: string, name: string, inf: Inference)
    requires Lookup(table, name).None?
    ensures Evaluate(table, text, name, inf) == Evaluate(table, text, "default", inf)
  {
  }

  /** A successful run is valid exactly when every result passes (so also
      when no recognised validator ran), and has one result per recognised
      entry, in configuration order, named after it and carrying its on_fail. */
  lemma EvaluateFollowsConfig(table: ConfigTable, text: string, name: string, inf: Inference)
    ensures var r := Evaluate(table, text, name, inf);
            r.status == Success ==> (r.valid <==> forall i :: 0 <= i < |r.validations| ==> r.validations[i].status == Pass)
    ensures var r := Evaluate(table, text, name, inf);
            r.status == Success ==>
              var rec := Recognised(Resolve(table, name).value.validators.value);
              && |r.validations| == |rec|
              && forall i :: 0 <= i < |rec| ==>
                   rec[i].name == Some(r.validations[i].validatorName)
                   && rec[i].onFail == Some(r.validations[i].onFailAction)
  {
    var r := Evaluate(table, text, name, inf);
    if r.status == Success {
      var entries := Resolve(table, name).value.validators.value;
      PlanMeaning(entries);
      AllPassedMeaning(r.validations);
    }
  }

  /** The reported text of a successful run is the redacted text of the last
      failing result that carries one, or `None` when that leaves the input
      unchanged; only a PII result can carry one. */
  lemma EvaluateProcessedText(table: ConfigTable, text: string, name: string, inf: Inference)
    ensures var r := Evaluate(table, text, name, inf);
            r.processedText != Some(text)
    ensures var r := Evaluate(table, text, name, inf);
            forall i :: 0 <= i < |r.validations| && r.validations[i].metadata.Some? ==>
              r.validations[i].validatorName == "pii_detection"
    ensures var r := Evaluate(table, text, name, inf);
            (forall i :: 0 <= i < |r.validations| ==> !Rewrites(r.validations[i])) ==> r.processedText == None
    ensures var r := Evaluate(table, text, name, inf);
            forall j :: 0 <= j < |r.validations| && Rewrites(r.validations[j]) &&
                        (forall k :: j < k < |r.validations| ==> !Rewrites(r.validations[k])) ==>
              r.processedText == Reported(text, r.validations[j].metadata.value.redactedText)
  {
    var r := Evaluate(table, text, name, inf);
    if forall i :: 0 <= i < |r.validations| ==> !Rewrites(r.validations[i]) {
      if r.status == Success {
        LastRedactionUnchanged(text, r.validations);
      }
    }
    forall j | 0 <= j < |r.validations| && Rewrites(r.validations[j]) &&
               (forall k :: j < k < |r.validations| ==> !Rewrites(r.validations[k]))
      ensures r.processedText == Reported(text, r.validations[j].metadata.value.redactedText)
    {
      LastRedactionLastWins(text, r.validations, j);
    }
  }
}
