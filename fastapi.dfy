/** The first FastAPI guardrails service: validators run one after another
    in configuration order, and only a failing PII check may rewrite the text. */
module FastApiService {
  import opened Wrappers
  import opened Verdicts
  import opened NlpChecks

  /** The service's own `GUARDRAIL_CONFIGS`. */
  const GuardrailConfigs: ConfigTable := [
    ("default", GuardrailConfig("Default guardrail with basic NLP validation", Some([
      Entry("length_check", "exception").(maxLength := Some(1000)),
      Entry("toxicity_check", "exception").(threshold := Some(0.7)),
      Entry("sentiment_check", "log").(threshold := Some(-0.5))]))),
    ("strict", GuardrailConfig("Strict content moderation", Some([
      Entry("length_check", "exception").(maxLength := Some(500)),
      Entry("toxicity_check", "exception").(threshold := Some(0.3)),
      Entry("sentiment_check", "exception").(threshold := Some(-0.3)),
      Entry("pii_detection", "filter")]))),
    ("permissive", GuardrailConfig("Permissive content validation", Some([
      Entry("length_check", "log").(maxLength := Some(2000)),
      Entry("toxicity_check", "log").(threshold := Some(0.9))])))
  ]

  /** `validate_text_with_guardrails`: the sequential run gives exactly the
      reference response, so its pii-only rewriting rule agrees with the
      last-rewriting-result rule of the enhanced service. */
  method ValidateTextWithGuardrails(table: ConfigTable, text: string, name: string, inf: Inference)
    returns (r: Response)
    ensures r == Evaluate(table, text, name, inf)
  {
    var resolved := Resolve(table, name);
    if resolved.Err? {
      return InternalError(resolved.error);
    }
    if resolved.value.validators.None? {
      return InternalError(KeyError("validators"));
    }
    var entries := resolved.value.validators.value;
    var validations: seq<ValidatorResult> := [];
    var allPassed := true;
    var processed := text;
    ghost var tasks: seq<Task> := [];
    var i := 0;
    while i < |entries|
      invariant 0 <= i <= |entries|
      invariant Plan(entries[..i]) == Ok(tasks)
      invariant validations == Outcomes(tasks, text, inf)
      invariant allPassed == AllPassed(validations)
      invariant processed == LastRedaction(text, validations)
    {
      var entry := entries[i];
      PlanStep(entries, i);
      var keys := EntryKeys(entry);
      if keys.Err? {
        PlanPrefixError(entries, i + 1);
        return InternalError(keys.error);
      }
      var validatorName := keys.value.0;
      var onFail := keys.value.1;
      var result: ValidatorResult;
      if validatorName == "length_check" {
        result := ValidateLength(text, entry.maxLength.GetOr(1000));
      } else if validatorName == "toxicity_check" {
        result := ValidateToxicity(inf.toxicity(entry.threshold.GetOr(0.7)));
      } else if validatorName == "sentiment_check" {
        result := ValidateSentiment(inf.sentiment(entry.threshold.GetOr(-0.5)));
      } else if validatorName == "pii_detection" {
        result := ValidatePii(text, inf.entities);
      } else {
        i := i + 1;
        continue;
      }
      result := result.(onFailAction := onFail);
      ghost var task := Task(CheckOf(validatorName, entry).value, onFail);
      assert result == Outcome(task, text, inf);
      AppendTask(tasks, task, text, inf);
      AppendResult(text, validations, result);
      validations := validations + [result];
      tasks := tasks + [task];
      if result.status == Fail {
        allPassed := false;
        if validatorName == "pii_detection" && result.metadata.Some? {
          processed := result.metadata.value.redactedText;
        }
      }
      i := i + 1;
    }
    assert entries[..i] == entries;
    r := Response(Success, "Validation completed successfully", allPassed, validations, Reported(text, processed));
  }
}
