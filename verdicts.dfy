/** The vocabulary every validation service shares: guardrail configurations
    (a named list of validator entries), per-validator results, and the merged
    response. */
module Verdicts {
  import opened Wrappers
  import opened Text

  datatype Status = Pass | Fail

  /** The `metadata` a failing PII check attaches to its result. */
  datatype PiiMetadata = PiiMetadata(redactedText: string, entities: seq<string>)

  datatype ValidatorResult = ValidatorResult(
    validatorName: string,
    status: Status,
    message: string,
    onFailAction: string,
    metadata: Option<PiiMetadata>)

  datatype ResponseStatus = Success | Failure

  datatype Response = Response(
    status: ResponseStatus,
    message: string,
    valid: bool,
    validations: seq<ValidatorResult>,
    processedText: Option<string>)

  /** An exception that escapes a validation run. A `KeyError` names the
      missing key; anything else carries its text. */
  datatype Error = KeyError(key: string) | Raised(detail: string)

  /** `str(e)`: Python prints a `KeyError` as its key in quotes. */
  function ErrorText(e: Error): string
  {
    match e
    case KeyError(k) => "'" + k + "'"
    case Raised(d) => d
  }

  /** The response every service returns when its validation run raises. */
  function InternalError(e: Error): Response
  {
    Response(Failure, "Internal error during validation: " + ErrorText(e), false, [], None)
  }

  /** One entry of a guardrail's `validators` list. `None` is a key the
      entry does not have. */
  datatype ValidatorEntry = ValidatorEntry(
    name: Option<string>,
    onFail: Option<string>,
    maxLength: Option<int>,
    threshold: Option<real>,
    redact: Option<bool>,
    description: Option<string>)

  /** An entry with just `name` and `on_fail`; the others are added with
      datatype update, as in `Entry("length_check", "log").(maxLength := Some(500))`. */
  function Entry(name: string, onFail: string): ValidatorEntry
  {
    ValidatorEntry(Some(name), Some(onFail), None, None, None, None)
  }

  /** A guardrail: its description and its validator list (`None` when the
      `validators` key is missing). */
  datatype GuardrailConfig = GuardrailConfig(description: string, validators: Option<seq<ValidatorEntry>>)

  /** A `GUARDRAIL_CONFIGS` table, in insertion order. */
  type ConfigTable = seq<(string, GuardrailConfig)>

  function Lookup(table: ConfigTable, name: string): Option<GuardrailConfig>
  {
    if table == [] then None
    else if table[0].0 == name then Some(table[0].1)
    else Lookup(table[1..], name)
  }

  /** `GUARDRAIL_CONFIGS.get(name, GUARDRAIL_CONFIGS["default"])`. The default
      argument is evaluated first, so a table without "default" raises
      `KeyError('default')` whatever name is asked for. */
  function Resolve(table: ConfigTable, name: string): Result<GuardrailConfig, Error>
  {
    match Lookup(table, "default")
    case None => Err(KeyError("default"))
    case Some(fallback) => Ok(Lookup(table, name).GetOr(fallback))
  }

  /** A name missing from the table resolves exactly as "default" does. */
  lemma ResolveUnknownIsDefault(table: ConfigTable, name: string)
    requires Lookup(table, name).None?
    ensures Resolve(table, name) == Resolve(table, "default")
  {
  }

  /** A name present in a table that has "default" resolves to its own entry. */
  lemma ResolveKnown(table: ConfigTable, name: string)
    requires Lookup(table, "default").Some? && Lookup(table, name).Some?
    ensures Resolve(table, name) == Ok(Lookup(table, name).value)
  {
  }

  /** `validator_config["name"]` and then `validator_config["on_fail"]`. */
  function EntryKeys(e: ValidatorEntry): Result<(string, string), Error>
  {
    match (e.name, e.onFail)
    case (None, _) => Err(KeyError("name"))
    case (Some(_), None) => Err(KeyError("on_fail"))
    case (Some(n), Some(a)) => Ok((n, a))
  }

  /** The running `all_passed` flag. */
  predicate AllPassed(rs: seq<ValidatorResult>)
  {
    rs == [] || (AllPassed(rs[..|rs| - 1]) && rs[|rs| - 1].status == Pass)
  }

  lemma {:induction false} AllPassedMeaning(rs: seq<ValidatorResult>)
    ensures AllPassed(rs) <==> forall i :: 0 <= i < |rs| ==> rs[i].status == Pass
  {
    if rs != [] {
      var init := rs[..|rs| - 1];
      AllPassedMeaning(init);
      assert forall i :: 0 <= i < |init| ==> init[i] == rs[i];
    }
  }

  /** `processed_text if processed_text != text else None`. */
  function Reported(text: string, processed: string): (r: Option<string>)
    ensures r != Some(text)
    ensures r.None? ==> processed == text
    ensures r.Some? ==> r.value == processed
  {
    if processed != text then Some(processed) else None
  }

  /** The `length_check` validator: the text fails exactly when it is longer
      than `maxLength`. */
  function ValidateLength(text: string, maxLength: int): (r: ValidatorResult)
    ensures r.validatorName == "length_check" && r.onFailAction == "exception"
    ensures r.status == Fail <==> |text| > maxLength
    ensures r.metadata == None
  {
    if |text| > maxLength then
      ValidatorResult("length_check", Fail, LengthExceeded(|text|, maxLength), "exception", None)
    else
      ValidatorResult("length_check", Pass, LengthWithin, "exception", None)
  }

  /** "Text length (n) exceeds maximum allowed (maxLength)". */
  function LengthExceeded(n: int, maxLength: int): string
  {
    ("Text length (" + IntToString(n) + ") ") + "exceeds maximum allowed" + (" (" + IntToString(maxLength) + ")")
  }

  const LengthWithin: string := "Text length is " + "within acceptable limits"

  /** The two messages carry the phrases clients look for. */
  lemma ValidateLengthMessages(text: string, maxLength: int)
    ensures ValidateLength(text, maxLength).status == Fail ==>
              Contains(ValidateLength(text, maxLength).message, "exceeds maximum allowed")
    ensures ValidateLength(text, maxLength).status == Pass ==>
              Contains(ValidateLength(text, maxLength).message, "within acceptable limits")
  {
    ContainsMiddle("Text length (" + IntToString(|text|) + ") ", "exceeds maximum allowed",
                   " (" + IntToString(maxLength) + ")");
    assert LengthExceeded(|text|, maxLength) == ("Text length (" + IntToString(|text|) + ") ")
           + "exceeds maximum allowed" + (" (" + IntToString(maxLength) + ")");
    ContainsMiddle("Text length is ", "within acceptable limits", "");
    assert LengthWithin == "Text length is " + "within acceptable limits" + "";
  }
}
