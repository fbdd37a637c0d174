/** The mock guardrails of the Flask service: keyword-based length,
    profanity, toxic-phrase and regular-expression PII checks over the
    configuration tables, with the working text rewritten in place by
    profanity masking and PII redaction. */
module MockGuardrails {
  import opened Wrappers
  import opened Text
  import opened Values
  import opened Verdicts
  import ConfigTables

  /** The regular-expression engine, abstracted: how many matches
      `re.findall(pattern, text)` returns, and `re.sub(pattern, repl, text)`. */
  datatype Regex = Regex(findall: (string, string) -> nat, sub: (string, string, string) -> string)

  /** The validator settings the checks read. Each is the looked-up value, or
      the `KeyError` its lookup raises. */
  datatype MockSettings = MockSettings(
    profaneWords: Result<seq<string>, Error>,
    toxicPhrases: Result<seq<string>, Error>,
    piiPatterns: Result<seq<(string, string)>, Error>,
    redactionText: Result<map<string, string>, Error>)

  /** The settings as the shipped `VALIDATOR_CONFIGS` provides them: none of
      the four keys the checks read is there. */
  const ShippedSettings: MockSettings := MockSettings(
    Err(KeyError("profanity_check")),
    Err(KeyError("toxic_language")),
    Err(KeyError("patterns")),
    Err(KeyError("redaction_text")))

  /** The errors in `ShippedSettings` are the lookups that fail on the table. */
  lemma ShippedSettingsMatchTable()
    ensures ConfigTables.Path(ConfigTables.ValidatorConfigs, ["profanity_check"]).None?
    ensures ConfigTables.Path(ConfigTables.ValidatorConfigs, ["toxic_language"]).None?
    ensures ConfigTables.Path(ConfigTables.ValidatorConfigs, ["pii_detection"]).Some?
    ensures ConfigTables.Path(ConfigTables.ValidatorConfigs, ["pii_detection", "patterns"]).None?
    ensures ConfigTables.Path(ConfigTables.ValidatorConfigs, ["pii_detection", "redaction_text"]).None?
  {
  }

  /** `any(w in hay for w in words)`. */
  predicate AnyIn(words: seq<string>, hay: string)
  {
    exists i :: 0 <= i < |words| && Contains(hay, words[i])
  }

  /** The text after replacing every word, one after another, by as many
      asterisks as it has characters. */
  function MaskAll(s: string, words: seq<string>): string
  {
    if words == [] then s
    else
      var w := words[|words| - 1];
      ReplaceAll(MaskAll(s, words[..|words| - 1]), w, Repeat('*', |w|))
  }

  /** Masking never changes the length of the text. */
  lemma {:induction false} MaskAllKeepsLength(s: string, words: seq<string>)
    ensures |MaskAll(s, words)| == |s|
  {
    if words != [] {
      var w := words[|words| - 1];
      MaskAllKeepsLength(s, words[..|words| - 1]);
      ReplaceAllSameLength(MaskAll(s, words[..|words| - 1]), w, Repeat('*', |w|));
    }
  }

  /** Masking a text that holds none of the (non-empty) words changes nothing. */
  lemma {:induction false} MaskAllAbsent(s: string, words: seq<string>)
    requires forall i :: 0 <= i < |words| ==> words[i] != [] && !Contains(s, words[i])
    ensures MaskAll(s, words) == s
  {
    if words != [] {
      var init := words[..|words| - 1];
      assert forall i :: 0 <= i < |init| ==> init[i] == words[i];
      MaskAllAbsent(s, init);
      ReplaceAllAbsent(s, words[|words| - 1], Repeat('*', |words[|words| - 1]|));
    }
  }

  /** The masking loop of the profanity check. */
  method MaskProfanity(s: string, words: seq<string>) returns (out: string)
    ensures out == MaskAll(s, words)
  {
    out := s;
    var i := 0;
    while i < |words|
      invariant 0 <= i <= |words|
      invariant out == MaskAll(s, words[..i])
    {
      var next := words[..i + 1];
      assert next[..i] == words[..i] && next[i] == words[i];
      out := ReplaceAll(out, words[i], Repeat('*', |words[i]|));
      i := i + 1;
    }
    assert words[..i] == words;
  }

  /** "n type(s)" for each PII type with matches, in pattern order. */
  function PiiCounts(patterns: seq<(string, string)>, text: string, re: Regex): seq<string>
  {
    if patterns == [] then []
    else
      var p := patterns[|patterns| - 1];
      var n := re.findall(p.1, text);
      PiiCounts(patterns[..|patterns| - 1], text, re)
        + (if n > 0 then [IntToString(n) + " " + p.0 + "(s)"] else [])
  }

  lemma {:induction false} PiiCountsEmpty(patterns: seq<(string, string)>, text: string, re: Regex)
    ensures PiiCounts(patterns, text, re) == [] <==>
              forall i :: 0 <= i < |patterns| ==> re.findall(patterns[i].1, text) == 0
  {
    if patterns != [] {
      var init := patterns[..|patterns| - 1];
      assert forall i :: 0 <= i < |init| ==> init[i] == patterns[i];
      PiiCountsEmpty(init, text, re);
    }
  }

  /** The redaction loop: every pattern, in order, substituted by its
      type's redaction text; a type without one raises `KeyError`. */
  function RedactAll(s: string, patterns: seq<(string, string)>, redaction: map<string, string>, re: Regex)
    : Result<string, Error>
  {
    if patterns == [] then Ok(s)
    else
      var before :- RedactAll(s, patterns[..|patterns| - 1], redaction, re);
      var p := patterns[|patterns| - 1];
      if p.0 in redaction then Ok(re.sub(p.1, redaction[p.0], before)) else Err(KeyError(p.0))
  }

  /** What the validation loop has built so far. */
  datatype RunState = RunState(validations: seq<ValidatorResult>, processed: string)

  function Verdict(name: string, fails: bool, failMsg: string, passMsg: string, onFail: string): ValidatorResult
  {
    ValidatorResult(name, if fails then Fail else Pass, if fails then failMsg else passMsg, onFail, None)
  }

  /** One pass of the validation loop over the entry `e`: `text` is the
      original input, which every check inspects; `st.processed` is the
      working text that masking and redaction rewrite. */
  function Step(st: RunState, e: ValidatorEntry, text: string, settings: MockSettings, re: Regex)
    : Result<RunState, Error>
  {
    var keys :- EntryKeys(e);
    var name := keys.0;
    var onFail := keys.1;
    if name == "length_check" then
      Ok(st.(validations := st.validations + [ValidateLength(text, e.maxLength.GetOr(1000)).(onFailAction := onFail)]))
    else if name == "profanity_check" then
      var words :- settings.profaneWords;
      var fails := AnyIn(words, Lower(text));
      var result := Verdict(name, fails, "Profanity detected in text", "No profanity detected", onFail);
      Ok(RunState(st.validations + [result],
                  if fails && onFail == "filter" then MaskAll(st.processed, words) else st.processed))
    else if name == "toxic_language" then
      var phrases :- settings.toxicPhrases;
      var fails := AnyIn(phrases, Lower(text));
      Ok(st.(validations := st.validations
        + [Verdict(name, fails, "Toxic language detected", "No toxic language detected", onFail)]))
    else if name == "pii_detection" then
      var patterns :- settings.piiPatterns;
      var redaction :- settings.redactionText;
      var counts := PiiCounts(patterns, text, re);
      var fails := counts != [];
      var result := Verdict(name, fails, "PII detected: " + Join(", ", counts), "No PII detected", onFail);
      if fails && e.redact == Some(true) then
        var redacted :- RedactAll(st.processed, patterns, redaction, re);
        Ok(RunState(st.validations + [result], redacted))
      else Ok(st.(validations := st.validations + [result]))
    else Ok(st)
  }

  /** The validation loop over the first entries. */
  function Run(entries: seq<ValidatorEntry>, text: string, settings: MockSettings, re: Regex): Result<RunState, Error>
  {
    if entries == [] then Ok(RunState([], text))
    else
      var st :- Run(entries[..|entries| - 1], text, settings, re);
      Step(st, entries[|entries| - 1], text, settings, re)
  }

  /** The reference meaning of `validate_text_with_mock_guardrails`. */
  function MockEvaluate(table: ConfigTable, settings: MockSettings, re: Regex, text: string, name: string): Response
  {
    match Resolve(table, name)
    case Err(e) => InternalError(e)
    case Ok(cfg) =>
      match cfg.validators
      case None => InternalError(KeyError("validators"))
      case Some(entries) =>
        match Run(entries, text, settings, re)
        case Err(e) => InternalError(e)
        case Ok(st) =>
          Response(Success, "Validation completed successfully", AllPassed(st.validations), st.validations,
                   Reported(text, st.processed))
  }

  predicate MockKnown(name: string)
  {
    name == "length_check" || name == "profanity_check" || name == "toxic_language" || name == "pii_detection"
  }

  /** The entries the mock checks recognise, in order. */
  function MockRecognised(entries: seq<ValidatorEntry>): seq<ValidatorEntry>
  {
    if entries == [] then []
    else
      var e := entries[|entries| - 1];
      MockRecognised(entries[..|entries| - 1]) + (if e.name.Some? && MockKnown(e.name.value) then [e] else [])
  }

  /** A loop that does not raise leaves one result per recognised entry, in
      order, named after it and carrying its on_fail. */
  /** A pass over an entry no mock check recognises changes nothing; over a
      recognised one it appends one result, named after the entry and carrying
      its on_fail. */
  lemma StepShape(st: RunState, e: ValidatorEntry, text: string, settings: MockSettings, re: Regex)
    requires Step(st, e, text, settings, re).Ok?
    ensures !(e.name.Some? && MockKnown(e.name.value)) ==> Step(st, e, text, settings, re).value == st
    ensures e.name.Some? && MockKnown(e.name.value) ==>
              var vs := Step(st, e, text, settings, re).value.validations;
              && |vs| == |st.validations| + 1
              && vs[..|st.validations|] == st.validations
              && e.name == Some(vs[|st.validations|].validatorName)
              && e.onFail == Some(vs[|st.validations|].onFailAction)
  {
    if e.name.Some? && MockKnown(e.name.value) {
      var vs := Step(st, e, text, settings, re).value.validations;
      assert vs[..|st.validations|] == st.validations;
    }
  }

  /** A loop that does not raise leaves one result per recognised entry, in
      order, named after it and carrying its on_fail. */
  lemma {:induction false} RunFollowsConfig(entries: seq<ValidatorEntry>, text: string, settings: MockSettings, re: Regex)
    ensures Run(entries, text, settings, re).Ok? ==>
              var vs := Run(entries, text, settings, re).value.validations;
              var rec := MockRecognised(entries);
              && |vs| == |rec|
              && forall i :: 0 <= i < |vs| ==>
                   rec[i].name == Some(vs[i].validatorName) && rec[i].onFail == Some(vs[i].onFailAction)
  {
    if entries != [] && Run(entries, text, settings, re).Ok? {
      var init := entries[..|entries| - 1];
      var e := entries[|entries| - 1];
      RunFollowsConfig(init, text, settings, re);
      var st := Run(init, text, settings, re).value;
      StepShape(st, e, text, settings, re);
      var vs := Run(entries, text, settings, re).value.validations;
      var rec := MockRecognised(entries);
      assert rec == MockRecognised(init) + (if e.name.Some? && MockKnown(e.name.value) then [e] else []);
      if e.name.Some? && MockKnown(e.name.value) {
        assert vs == st.validations + [vs[|st.validations|]];
      }
    }
  }

  /** Only a filtering profanity check and a redacting PII check rewrite the
      working text; masking keeps its length. */
  lemma StepRewrites(st: RunState, e: ValidatorEntry, text: string, settings: MockSettings, re: Regex)
    requires Step(st, e, text, settings, re).Ok?
    ensures var st' := Step(st, e, text, settings, re).value;
            st'.processed != st.processed ==>
              || (e.name == Some("profanity_check") && e.onFail == Some("filter")
                  && |st'.processed| == |st.processed|)
              || (e.name == Some("pii_detection") && e.redact == Some(true))
  {
    if e.name == Some("profanity_check") && settings.profaneWords.Ok? {
      MaskAllKeepsLength(st.processed, settings.profaneWords.value);
    }
  }

  /** The verdict each recognised entry appends: length fails beyond
      max_length (1000 when absent); profanity and toxic language fail when a
      configured word or phrase occurs in the lower-cased text; PII fails when
      some pattern matches. */
  lemma StepVerdicts(st: RunState, e: ValidatorEntry, text: string, settings: MockSettings, re: Regex)
    requires Step(st, e, text, settings, re).Ok? && e.name.Some? && MockKnown(e.name.value)
    ensures var st' := Step(st, e, text, settings, re).value;
            && |st'.validations| == |st.validations| + 1
            && st'.validations[..|st.validations|] == st.validations
            && var r := st'.validations[|st.validations|];
               && (e.name == Some("length_check") ==> (r.status == Fail <==> |text| > e.maxLength.GetOr(1000)))
               && (e.name == Some("profanity_check") ==>
                     (r.status == Fail <==> AnyIn(settings.profaneWords.value, Lower(text))))
               && (e.name == Some("toxic_language") ==>
                     (r.status == Fail <==> AnyIn(settings.toxicPhrases.value, Lower(text)))
                     && st'.processed == st.processed)
               && (e.name == Some("pii_detection") ==>
                     (r.status == Fail <==> exists i :: 0 <= i < |settings.piiPatterns.value| &&
                                              re.findall(settings.piiPatterns.value[i].1, text) > 0))
  {
    if e.name == Some("pii_detection") {
      PiiCountsEmpty(settings.piiPatterns.value, text, re);
    }
  }

  /** A run that raises reports failure, invalid, no results and no text;
      a successful one is valid exactly when every result passes and never
      reports the input itself as processed. */
  lemma MockEvaluateMeaning(table: ConfigTable, settings: MockSettings, re: Regex, text: string, name: string)
    ensures var r := MockEvaluate(table, settings, re, text, name);
            r.status == Failure ==> !r.valid && r.validations == [] && r.processedText == None
    ensures var r := MockEvaluate(table, settings, re, text, name);
            r.status == Success ==> (r.valid <==> forall i :: 0 <= i < |r.validations| ==> r.validations[i].status == Pass)
    ensures var r := MockEvaluate(table, settings, re, text, name);
            r.processedText != Some(text)
    ensures Lookup(table, name).None? ==>
              MockEvaluate(table, settings, re, text, name) == MockEvaluate(table, settings, re, text, "default")
  {
    AllPassedMeaning(MockEvaluate(table, settings, re, text, name).validations);
  }

  /** `validate_text_with_mock_guardrails`. */
  method ValidateTextWithMockGuardrails(table: ConfigTable, settings: MockSettings, re: Regex, text: string, name: string)
    returns (r: Response)
    ensures r == MockEvaluate(table, settings, re, text, name)
  {
    var resolved := Resolve(table, name);
    if resolved.Err? {
      return InternalError(resolved.error);
    }
    if resolved.value.validators.None? {
      return InternalError(KeyError("validators"));
    }
    var entries := resolved.value.validators.value;
    var validations: seq<ValidatorResult> := [];
    var allPassed := true;
    var processed := text;
    var i := 0;
    while i < |entries|
      invariant 0 <= i <= |entries|
      invariant Run(entries[..i], text, settings, re) == Ok(RunState(validations, processed))
      invariant allPassed == AllPassed(validations)
    {
      var entry := entries[i];
      RunExtend(entries, i, text, settings, re);
      var step := StepMethod(RunState(validations, processed), entry, text, settings, re);
      if step.Err? {
        RunPrefixError(entries, i + 1, text, settings, re);
        return InternalError(step.error);
      }
      if |step.value.validations| > |validations| {
        var added := step.value.validations[|validations|];
        assert step.value.validations == validations + [added];
        AppendPassed(validations, added);
        if added.status == Fail {
          allPassed := false;
        }
      }
      validations := step.value.validations;
      processed := step.value.processed;
      i := i + 1;
    }
    assert entries[..i] == entries;
    r := Response(Success, "Validation completed successfully", allPassed, validations, Reported(text, processed));
  }

  lemma RunExtend(entries: seq<ValidatorEntry>, i: nat, text: string, settings: MockSettings, re: Regex)
    requires i < |entries| && Run(entries[..i], text, settings, re).Ok?
    ensures Run(entries[..i + 1], text, settings, re)
            == Step(Run(entries[..i], text, settings, re).value, entries[i], text, settings, re)
  {
    var next := entries[..i + 1];
    assert next[..i] == entries[..i] && next[i] == entries[i];
  }

  lemma AppendPassed(rs: seq<ValidatorResult>, x: ValidatorResult)
    ensures AllPassed(rs + [x]) == (AllPassed(rs) && x.status == Pass)
  {
    assert (rs + [x])[..|rs|] == rs;
  }

  /** Once a prefix of the entries raises, the whole loop raises the same error. */
  lemma {:induction false} RunPrefixError(entries: seq<ValidatorEntry>, i: nat, text: string, settings: MockSettings, re: Regex)
    requires i <= |entries| && Run(entries[..i], text, settings, re).Err?
    ensures Run(entries, text, settings, re) == Run(entries[..i], text, settings, re)
    decreases |entries| - i
  {
    if i < |entries| {
      var next := entries[..i + 1];
      assert next[..|next| - 1] == entries[..i];
      RunPrefixError(entries, i + 1, text, settings, re);
    } else {
      assert entries[..i] == entries;
    }
  }

  /** One pass of the loop body, with the masking and redaction loops. */
  method StepMethod(st: RunState, e: ValidatorEntry, text: string, settings: MockSettings, re: Regex)
    returns (r: Result<RunState, Error>)
    ensures r == Step(st, e, text, settings, re)
    ensures r.Ok? ==> |r.value.validations| == |st.validations| || |r.value.validations| == |st.validations| + 1
    ensures r.Ok? ==> r.value.validations[..|st.validations|] == st.validations
  {
    var keys := EntryKeys(e);
    if keys.Err? {
      return Err(keys.error);
    }
    var name := keys.value.0;
    var onFail := keys.value.1;
    if name == "profanity_check" {
      if settings.profaneWords.Err? {
        return Err(settings.profaneWords.error);
      }
      var words := settings.profaneWords.value;
      var fails := AnyIn(words, Lower(text));
      var result := Verdict(name, fails, "Profanity detected in text", "No profanity detected", onFail);
      var processed := st.processed;
      if fails && onFail == "filter" {
        processed := MaskProfanity(processed, words);
      }
      r := Ok(RunState(st.validations + [result], processed));
      assert r.value.validations[..|st.validations|] == st.validations;
    } else if name == "pii_detection" {
      if settings.piiPatterns.Err? {
        return Err(settings.piiPatterns.error);
      }
      if settings.redactionText.Err? {
        return Err(settings.redactionText.error);
      }
      var patterns := settings.piiPatterns.value;
      var redaction := settings.redactionText.value;
      var counts := PiiCounts(patterns, text, re);
      var fails := counts != [];
      var result := Verdict(name, fails, "PII detected: " + Join(", ", counts), "No PII detected", onFail);
      var processed := st.processed;
      if fails && e.redact == Some(true) {
        var j := 0;
        while j < |patterns|
          invariant 0 <= j <= |patterns|
          invariant RedactAll(st.processed, patterns[..j], redaction, re) == Ok(processed)
        {
          var next := patterns[..j + 1];
          assert next[..j] == patterns[..j] && next[j] == patterns[j];
          var piiType := patterns[j].0;
          if piiType !in redaction {
            RedactPrefixError(st.processed, patterns, j + 1, redaction, re);
            return Err(KeyError(piiType));
          }
          processed := re.sub(patterns[j].1, redaction[piiType], processed);
          j := j + 1;
        }
        assert patterns[..j] == patterns;
      }
      r := Ok(RunState(st.validations + [result], processed));
      assert r.value.validations[..|st.validations|] == st.validations;
    } else {
      r := Step(st, e, text, settings, re);
      assert r.Ok? ==> r.value.validations[..|st.validations|] == st.validations;
    }
  }

  lemma {:induction false} RedactPrefixError(s: string, patterns: seq<(string, string)>, j: nat, redaction: map<string, string>, re: Regex)
    requires j <= |patterns| && RedactAll(s, patterns[..j], redaction, re).Err?
    ensures RedactAll(s, patterns, redaction, re) == RedactAll(s, patterns[..j], redaction, re)
    decreases |patterns| - j
  {
    if j < |patterns| {
      var next := patterns[..j + 1];
      assert next[..|next| - 1] == patterns[..j];
      RedactPrefixError(s, patterns, j + 1, redaction, re);
    } else {
      assert patterns[..j] == patterns;
    }
  }

  /** With the shipped tables, a guardrail that lists a PII check ("strict")
      always ends in the internal-error response, because the PII settings
      have no `patterns`. */
  lemma ShippedStrictFails(re: Regex, text: string)
    ensures MockEvaluate(ConfigTables.GuardrailConfigs, ShippedSettings, re, text, "strict")
            == InternalError(KeyError("patterns"))
  {
    var table := ConfigTables.GuardrailConfigs;
    var cfg := table[1].1;
    assert Lookup(table, "strict") == Some(cfg);
    var entries := cfg.validators.value;
    var st0 := RunState([], text);
    var st1 := RunState([ValidateLength(text, 500).(onFailAction := "exception")], text);
    assert entries[..0] == [];
    RunExtend(entries, 0, text, ShippedSettings, re);
    assert EntryKeys(entries[0]) == Ok(("length_check", "exception"));
    assert entries[0].maxLength == Some(500);
    assert st0.validations + [ValidateLength(text, 500).(onFailAction := "exception")] == st1.validations;
    assert Step(st0, entries[0], text, ShippedSettings, re) == Ok(st1);
    RunExtend(entries, 1, text, ShippedSettings, re);
    assert Step(st1, entries[1], text, ShippedSettings, re) == Ok(st1);
    RunExtend(entries, 2, text, ShippedSettings, re);
    assert Step(st1, entries[2], text, ShippedSettings, re) == Ok(st1);
    RunExtend(entries, 3, text, ShippedSettings, re);
    assert Step(st1, entries[3], text, ShippedSettings, re) == Err(KeyError("patterns"));
    assert entries[..4] == entries;
  }

  /** With the shipped tables, "default" runs only its length check: the
      toxicity and sentiment entries name no mock check. */
  lemma ShippedDefaultIsLengthOnly(re: Regex, text: string)
    ensures var r := MockEvaluate(ConfigTables.GuardrailConfigs, ShippedSettings, re, text, "default");
            && r.status == Success
            && |r.validations| == 1
            && r.validations[0].validatorName == "length_check"
            && (r.valid <==> |text| <= 1000)
            && r.processedText == None
  {
    var table := ConfigTables.GuardrailConfigs;
    var cfg := table[0].1;
    assert Lookup(table, "default") == Some(cfg);
    var entries := cfg.validators.value;
    var st0 := RunState([], text);
    var st1 := RunState([ValidateLength(text, 1000).(onFailAction := "exception")], text);
    assert entries[..0] == [];
    RunExtend(entries, 0, text, ShippedSettings, re);
    assert EntryKeys(entries[0]) == Ok(("length_check", "exception"));
    assert entries[0].maxLength == Some(1000);
    assert st0.validations + [ValidateLength(text, 1000).(onFailAction := "exception")] == st1.validations;
    assert Step(st0, entries[0], text, ShippedSettings, re) == Ok(st1);
    RunExtend(entries, 1, text, ShippedSettings, re);
    assert Step(st1, entries[1], text, ShippedSettings, re) == Ok(st1);
    RunExtend(entries, 2, text, ShippedSettings, re);
    assert Step(st1, entries[2], text, ShippedSettings, re) == Ok(st1);
    assert entries[..3] == entries;
    assert AllPassed(st1.validations) <==> |text| <= 1000 by {
      assert st1.validations[..0] == [];
    }
  }
}
