# Avonator guardrails service, modelled in Dafny

This project models the core of the Avonator guardrails service. The service
sits between users and a language model. It checks text against a named
*guardrail configuration*, which is a list of *validators*, each with an
`on_fail` action. It answers with a verdict: valid or not, one result per
validator, and the text as rewritten by masking or redaction.

The model covers these parts:

- **Configuration tables** (`config.py`): the guardrail and validator
  settings as shipped. Module `ConfigTables`.
- **Shared verdict logic** (`Verdicts`): the fallback to "default", the
  length check, the `all_passed` flag and the `processed_text` rule.
- **NLP validators** (`NlpChecks`): the toxicity, sentiment and PII checks
  of the FastAPI services. The reference meaning of one validation run is
  in `NlpChecks.Evaluate`.
- **FastAPI service** (`fastapi_guardrails.py`): the sequential validation
  loop. Module `FastApiService`.
- **Enhanced service** (`enhanced_guardrails.py`): a plan/gather/merge run,
  the Redis response cache, the memoising model manager and the two
  endpoints. Module `EnhancedService`. The cache key is modelled both as
  written (`KeyRule.DictMethod`, which raises) and corrected
  (`KeyRule.AsDict`); see "## Findings".
- **Flask mock service** (`guardrails.py`): keyword and regular-expression
  checks that mask and redact the working text. Module `MockGuardrails`.
- **Plugin registry** (`plugin_system.py`). Module `PluginSystem`.
- **Policy-as-code manager** (`policy_as_code_manager.py`): structural
  policy validation, version increments, updates, and federated
  import/export. Modules `PolicyChecks` and `PolicyRegistry`.
- **Federated learning**: the client (`federated_client.py`, module
  `FederatedClient`) and the server strategy (`federated_server.py`,
  module `FederatedServer`). They distribute policy tables and collect
  validation metrics.
- **LlamaGuard safety service**
  (`animalstyle/avonator_animalstyle_guardrailservice.py`). Module
  `LlamaGuard`.
- **Demo chatbot** (`chatbot.py`): it guards both its input and its output.
  Module `Chatbot`.

Python dictionaries are modelled as sequences of (key, value) pairs in
insertion order (`Values.Get`, `Put`, `Update`). JSON-like payloads are the
`Values.Value` datatype. Python's `type(x).__name__`, truthiness and
iteration over lists, dicts and strings are written out in `Values`.

Exceptions caught by an enclosing `try` are modelled as `Result` error
paths. The message texts are those CPython produces.

Several things stay abstract and are passed in as function parameters:

- ML models: `Inference`, `infer`.
- The regular-expression engine: `Regex`.
- The Python compiler: `compile`.
- The guardrails HTTP client: `guard`.
- Clocks: `now`, `stamp`, `elapsed`.
- Storage faults.

Stateful objects are classes whose methods carry `modifies` clauses:

- `EnhancedService.CacheManager` and `EnhancedService.ModelManager`;
- `PluginSystem.Plugin` and `PluginSystem.PluginManager`;
- `PolicyRegistry.PolicyManager`;
- `FederatedClient.Client` and `FederatedServer.Strategy`;
- `LlamaGuard.Service`.

Each method is proved against a specification function of the old state.
Further lemmas state what those functions mean.

## Model

| member | source | states |
|---|---|---|
| Values.GetPut | federated_server.py:198-202 | after `d[key] = v`, `d[key]` reads `v` and every other key reads as before |
| Values.PutKeys | plugin_system.py:314 | `d[key] = v` keeps the keys in place and appends `key` only when it is new |
| Values.PutDistinct | plugin_system.py:314-315 | `d[key] = v` keeps a dict's keys distinct |
| Values.UpdateMeaning | federated_server.py:382 | after `a.update(b)` a key reads as its last entry in `b` when `b` has it, otherwise as in `a` |
| Verdicts.ResolveUnknownIsDefault | fastapi_guardrails.py:335 | a guardrail name missing from the table resolves exactly as "default" |
| Verdicts.ResolveKnown | fastapi_guardrails.py:335 | a name present in a table that has "default" resolves to its own entry |
| Verdicts.AllPassedMeaning | fastapi_guardrails.py:337-373 | the running `all_passed` flag is true iff every result has status pass |
| Verdicts.Reported | fastapi_guardrails.py:384 | the reported processed text is never the input itself; it is absent iff the working text is unchanged, otherwise it is the working text |
| Verdicts.ValidateLength | fastapi_guardrails.py:216-230 | `length_check` fails iff the text is longer than the limit; the name is "length_check" and the action is "exception" |
| Verdicts.ValidateLengthMessages | fastapi_guardrails.py:216-230 | the fail message reports the length and the limit; the pass message says it is within limits |
| ConfigTables.GuardrailConfigsWellFormed | config.py:53-190 | the shipped table has "default"; names are distinct; every entry has a name and an on_fail among exception/log/filter; no guardrail repeats a validator; every length limit, the configured default included, is positive and at most the absolute maximum 10000 |
| ConfigTables.RedactionPatternsMatchEntities | config.py:209-218 | the PII settings give exactly one redaction text per listed spaCy entity label |
| NlpChecks.ValidateToxicity | fastapi_guardrails.py:232-261 | toxicity passes iff the model's verdict is clean; a raised model error becomes a failure carrying its message |
| NlpChecks.ValidateSentiment | fastapi_guardrails.py:263-292 | sentiment passes iff the verdict is clean; an error becomes a failure with action "log" |
| NlpChecks.ValidatePii | fastapi_guardrails.py:294-327 | the entity loop computes exactly the PII verdict: collected entities and text redacted entity by entity |
| NlpChecks.PiiEntitiesEmpty | fastapi_guardrails.py:300-304 | no PII entity is collected iff no entity of the document carries a PII label |
| NlpChecks.PiiEntitiesSound | fastapi_guardrails.py:300-304 | every collected entity is a PII entity of the document |
| NlpChecks.PiiVerdictMeaning | fastapi_guardrails.py:294-327 | PII fails iff extraction raised or some entity is PII; redacted text is attached iff entities were found, and equals the text with those entities replaced in order |
| NlpChecks.CheckOf | fastapi_guardrails.py:344-369 | an entry asks for a check iff its name is one of the four known validators, with defaults 1000, 0.7 and -0.5 |
| NlpChecks.PlanMeaning | fastapi_guardrails.py:340-342 | the loop raises iff some entry lacks `name` or `on_fail`; otherwise one task per recognised entry, in order, with its on_fail |
| NlpChecks.PlanPrefixError | fastapi_guardrails.py:340-342 | once an entry raises, the whole run raises the same KeyError |
| NlpChecks.RunCheck | fastapi_guardrails.py:344-375 | each result is named after its check, and only a PII result carries redaction metadata |
| NlpChecks.LastRedactionUnchanged | fastapi_guardrails.py:372-375 | with no rewriting result the working text stays the input |
| NlpChecks.LastRedactionLastWins | fastapi_guardrails.py:372-375 | otherwise the last failing PII result's redacted text is the working text |
| NlpChecks.EvaluateErrorPath | fastapi_guardrails.py:393-402 | a run fails (invalid, no results, no text) iff "default" is missing, the configuration has no validators, or some entry lacks a key |
| NlpChecks.EvaluateUnknownName | fastapi_guardrails.py:335 | an unknown guardrail name validates exactly as "default" |
| NlpChecks.EvaluateFollowsConfig | fastapi_guardrails.py:340-382 | a successful run is valid iff every result passes, with one result per recognised entry, in configuration order, carrying its on_fail |
| NlpChecks.EvaluateProcessedText | fastapi_guardrails.py:374-384 | the processed text is never the input, is absent with no redaction, and otherwise comes from the last redacting result |
| FastApiService.ValidateTextWithGuardrails | fastapi_guardrails.py:330-402 | the sequential loop returns exactly the reference response `NlpChecks.Evaluate` |
| EnhancedService.PlanTasks | enhanced_guardrails.py:699-717 | the planning loop computes the reference plan (tasks or the first KeyError) |
| EnhancedService.Gather | enhanced_guardrails.py:720 | one result per task, in order, each the task's check on the original text |
| EnhancedService.MergeResults | enhanced_guardrails.py:723-747 | the merge pass gives the reference response over the gathered results |
| EnhancedService.RunValidators | enhanced_guardrails.py:691-747 | plan, gather and merge equal the FastAPI service's reference response |
| EnhancedService.GenerateKeyDistinguishes | enhanced_guardrails.py:397-405 | as written, key generation raises the `AttributeError` of `context.dict()` iff a context is present, and keys without context differ iff text or name differ; with `asdict`, it never raises and two requests share a key iff text, guardrail name and context agree |
| EnhancedService.CacheRead | enhanced_guardrails.py:370-385 | a read hits iff connected, no store error and the key is stored; a hit returns the stored response |
| EnhancedService.CacheWrite | enhanced_guardrails.py:387-395 | a write stores the value under the key iff connected, no store error and the TTL is positive; other keys are untouched |
| EnhancedService.CacheManager.Get | enhanced_guardrails.py:370-385 | returns `CacheRead` of the current store |
| EnhancedService.CacheManager.Set | enhanced_guardrails.py:387-395 | the new store is `CacheWrite` of the old one |
| EnhancedService.ValidateTextWithGuardrails | enhanced_guardrails.py:669-771 | raises iff, as written, a run through a connected cache carries a context; otherwise response and new store are those of the reference `Serve`, and a raise leaves the store as it was |
| EnhancedService.ServeRaises | enhanced_guardrails.py:680-683 | as written, a run raises `NoDictError` iff it consults a connected cache with a context; with `asdict` no run raises |
| EnhancedService.ServeHit | enhanced_guardrails.py:680-688 | when the key can be generated, a hit returns the stored response untouched and leaves the store as it was |
| EnhancedService.ServeWrites | enhanced_guardrails.py:749-751 | the store changes only after a successful, cached, connected run with positive TTL whose key was generated, and only under that key |
| EnhancedService.ServeTransparent | enhanced_guardrails.py:669-771 | with a consistent store, every answered run equals the uncached one, `cache_hit` is never true, and the store stays consistent; with `asdict` every run answers |
| EnhancedService.RequestContext | enhanced_guardrails.py:783-791 | the endpoint's context has the fresh request id and the request context's other fields, or the defaults |
| EnhancedService.ValidateText | enhanced_guardrails.py:774-807 | the endpoint's answer and new store are those of `ValidateEndpoint`: the run under the fresh context, or HTTP 500 when it raises |
| EnhancedService.ValidateEndpointCrashes | enhanced_guardrails.py:683 | as written, every request served through a connected cache, "hello" included, is answered with HTTP 500 |
| EnhancedService.ValidateEndpointAnswers | enhanced_guardrails.py:774-807 | with `asdict`, over a consistent store, the endpoint answers with the uncached verdict under request id `req_<stamp>`, no hit, and the store stays consistent |
| EnhancedService.ModelManager.GetModel | enhanced_guardrails.py:266-306 | a cached key returns its model without loading; an unknown type raises; a load is cached with its time only when it succeeds |
| EnhancedService.ModelManager.GetPipeline | enhanced_guardrails.py:322-347 | memoised by pipeline name; a Hugging Face load cached with its time only on success |
| EnhancedService.CountHitsAppend | enhanced_guardrails.py:853-858 | hit counts add up over concatenated chunks |
| EnhancedService.CountChunk | enhanced_guardrails.py:854-858 | the tally loop counts the hits, and hits plus misses is the chunk size |
| EnhancedService.CountHitsNone | enhanced_guardrails.py:855 | with no response marked as a hit, the hit count is zero |
| EnhancedService.BatchContext | enhanced_guardrails.py:832-839 | each text's context carries request id `batch_<stamp>_<start>` with its own clock reading, the request context's fields, and no timeout |
| EnhancedService.ChunkStartOf | enhanced_guardrails.py:826-827 | every position lies in the chunk starting at its chunk start |
| EnhancedService.ValidateChunk | enhanced_guardrails.py:831-851 | as written, a non-empty chunk through a connected cache raises with the store untouched; otherwise one response per text, and with a consistent store each is the uncached response under that text's context |
| EnhancedService.ExtendResults | enhanced_guardrails.py:851 | a chunk's responses extend the earlier chunks' responses position by position, each under its own chunk start and clock reading |
| EnhancedService.CountValidResults | enhanced_guardrails.py:861 | the loop counts the valid responses |
| EnhancedService.ValidateBatch | enhanced_guardrails.py:811-879 | HTTP 500 iff the chunk size `min(BATCH_SIZE, len(texts))` is zero or, as written, a connected cache is consulted; then the store is untouched; otherwise one result per text (none for a negative size), hits plus misses equal the total, valid count bounded; with a consistent store every result is the uncached one and no hit is counted |
| MockGuardrails.ShippedSettingsMatchTable | config.py:185-219 | the shipped validator table lacks the profanity, toxic-language, PII-pattern and redaction-text keys the mock checks read |
| MockGuardrails.MaskAllKeepsLength | guardrails.py:94-95 | masking profanity never changes the text's length |
| MockGuardrails.MaskAllAbsent | guardrails.py:94-95 | masking a text containing none of the words changes nothing |
| MockGuardrails.MaskProfanity | guardrails.py:94-95 | the masking loop computes the reference masking |
| MockGuardrails.PiiCountsEmpty | guardrails.py:129-136 | no PII summary iff no pattern matches |
| MockGuardrails.StepShape | guardrails.py:57-154 | an unrecognised entry changes nothing; a recognised one appends one result named after it with its on_fail |
| MockGuardrails.RunFollowsConfig | guardrails.py:57-154 | a run that does not raise has one result per recognised entry, in order |
| MockGuardrails.StepRewrites | guardrails.py:92-95 | only a filtering profanity check or a redacting PII check rewrites the working text; masking keeps its length |
| MockGuardrails.StepVerdicts | guardrails.py:62-154 | length fails beyond max_length (1000 by default); profanity and toxic language fail iff a configured word occurs in the lower-cased text; PII fails iff some pattern matches |
| MockGuardrails.RunPrefixError | guardrails.py:57-59 | once an entry raises, the whole run raises the same error |
| MockGuardrails.MockEvaluateMeaning | guardrails.py:46-172 | a raising run reports failure with no results or text; a successful run is valid iff all results pass and never reports the input as processed; an unknown name runs "default" |
| MockGuardrails.ValidateTextWithMockGuardrails | guardrails.py:46-172 | the loop with masking and redaction returns exactly the reference response |
| MockGuardrails.StepMethod | guardrails.py:57-154 | one loop pass equals the reference step and appends at most one result |
| MockGuardrails.ShippedStrictFails | guardrails.py:124-147 | with the shipped tables, "strict" always ends in the internal-error response |
| MockGuardrails.ShippedDefaultIsLengthOnly | guardrails.py:57-78 | with the shipped tables, "default" runs only its length check |
| PluginSystem.Plugin.Initialize | plugin_system.py:212-225 | the mock plugin stores any config; the OpenAI plugin stores the key and succeeds iff it is truthy; a failure keeps an earlier success |
| PluginSystem.Plugin.Moderate | plugin_system.py:227-273 | valid iff initialised with a truthy key; then exactly one passing result, otherwise "Plugin not properly initialized" |
| PluginSystem.InfosMeaning | plugin_system.py:355-365 | the listing has one entry per registered plugin, with its key and health, and is active iff it is the active object |
| PluginSystem.OneActive | plugin_system.py:355-365 | over plugins stored under distinct names, each its own, the listing has distinct names and at most one active entry |
| PluginSystem.PluginManager.RegisterPlugin | plugin_system.py:298-326 | a non-empty config must initialise the plugin or nothing changes; otherwise the plugin is stored under its name and becomes active if none was |
| PluginSystem.PluginManager.SwitchPlugin | plugin_system.py:328-349 | succeeds iff the name is registered and healthy, and only then changes the active plugin |
| PluginSystem.PluginManager.ListPlugins | plugin_system.py:355-365 | the loop builds the listing `Infos`: one entry per registered name, at most one of them active |
| PluginSystem.PutKeepsNames | plugin_system.py:314 | storing a plugin under its name keeps every plugin under its own name |
| PluginSystem.InitializeDefaultPlugins | plugin_system.py:393-406 | both default plugins are registered, neither is healthy, the mock one is active, and switching to either fails |
| PluginSystem.HealthyButRefusing | plugin_system.py:212-286 | after a good and then an empty key, the OpenAI plugin is healthy but refuses to validate |
| PolicyChecks.UnexpectedKey | policy_as_code_manager.py:439 | none iff every key is a metadata field; a reported key is not a field |
| PolicyChecks.MissingField | policy_as_code_manager.py:439 | none iff every field is present; a reported field is missing |
| PolicyChecks.MetadataRoundTrip | policy_as_code_manager.py:615-637 | `PolicyMetadata(**asdict(m))` gives back `m` |
| PolicyChecks.ValidateCustomValidatorCode | policy_as_code_manager.py:598-613 | code that is not a string raises; a syntax error rejects; code that compiles is accepted iff it holds no dangerous keyword |
| PolicyChecks.DangerousCodeRejected | policy_as_code_manager.py:598-613 | code holding a dangerous keyword is never accepted |
| PolicyChecks.ListPolicyInvalid | policy_as_code_manager.py:163-166 | a list is never a valid policy |
| PolicyChecks.PolicyCheckValid | policy_as_code_manager.py:217-223 | a policy is valid iff its error list is empty |
| PolicyChecks.RegistryOnlyWarns | policy_as_code_manager.py:198-202 | the registry affects only warnings, never errors or the verdict |
| PolicyChecks.DepWarningsMeaning | policy_as_code_manager.py:198-202 | the dependency warnings name exactly the string dependencies missing from the registry |
| PolicyChecks.MissingFieldErrors | policy_as_code_manager.py:163-166 | each missing required field adds exactly one error naming it |
| PolicyChecks.PolicyCheckErrors | policy_as_code_manager.py:158-211 | when nothing raised, the errors are the checks' errors in order |
| PolicyChecks.PolicyCheckRaised | policy_as_code_manager.py:225-231 | a raising check turns the result into one "Validation error" |
| PolicyChecks.ManyValidatorsWarn | policy_as_code_manager.py:214-215 | more than ten validators draws the performance warning, and only then |
| PolicyChecks.PolicyCheckWarnings | policy_as_code_manager.py:198-215 | the warnings are the dependency warnings, then the performance one |
| PolicyChecks.OtherErrorsStart | policy_as_code_manager.py:168-211 | only the required-field errors start with 'M' |
| PolicyChecks.PolicyCheckMeaning | policy_as_code_manager.py:148-231 | `validate_policy` accepts exactly the well-formed policies |
| PolicyChecks.SplitVersion | policy_as_code_manager.py:555 | a version string splits back into its three numbers |
| PolicyChecks.IncrementVersionSemVer | policy_as_code_manager.py:553-572 | major resets minor and patch, minor resets patch, anything else bumps patch |
| PolicyChecks.IncrementVersionFallback | policy_as_code_manager.py:569-572 | a version that does not split into three integers, whether for the number of dot-separated parts or for a part `int()` rejects (such as "1.x.3"), gets ".1" appended |
| PolicyChecks.IncrementTwoPartVersion | policy_as_code_manager.py:569-572 | "1.2" becomes "1.2.1" |
| PolicyRegistry.HasKeyPut | policy_as_code_manager.py:297 | after `d[key] = v` the keys are the old ones plus `key` |
| PolicyRegistry.UpdateRejected | policy_as_code_manager.py:252-262 | invalid data or an unknown name changes nothing and fails |
| PolicyRegistry.UpdateBumpsVersion | policy_as_code_manager.py:264-307 | a successful update bumps that policy's version, keeps its creation time, saves the data, and leaves other policies alone |
| PolicyRegistry.ImportOneResultEach | policy_as_code_manager.py:416-482 | each incoming policy adds exactly one result |
| PolicyRegistry.ImportKeepsExisting | policy_as_code_manager.py:419-425 | without overwriting, a registered name keeps its entry and file; no import removes a name |
| PolicyRegistry.ImportMeaning | policy_as_code_manager.py:395-495 | one result per incoming policy, or one failure when "policies" is not a dict; registered names kept unless overwriting |
| PolicyRegistry.ImportRejectsExisting | policy_as_code_manager.py:419-425 | without overwriting, an incoming policy whose name is already registered gets the "already exists and overwrite_existing=False" failure at its own position |
| PolicyRegistry.ImportAnswersExisting | policy_as_code_manager.py:419-425 | an import without `overwrite_existing` answers each incoming policy whose name is registered with an invalid result carrying the "already exists" error, at that policy's index |
| PolicyRegistry.ExportEntriesMeaning | policy_as_code_manager.py:375-382 | a name is exported iff requested, registered and with non-empty saved data; its metadata is the registry's |
| PolicyRegistry.ExportOnlyRegistered | policy_as_code_manager.py:369-389 | export includes only registered names |
| PolicyRegistry.ValidatorItemErrors | policy_as_code_manager.py:174-184 | the per-validator loop gives the reference item errors |
| PolicyRegistry.DependencyChecks | policy_as_code_manager.py:198-202 | the dependency loop gives the reference errors and warnings |
| PolicyRegistry.CustomCodeChecks | policy_as_code_manager.py:205-211 | the custom-validator loop gives the reference errors |
| PolicyRegistry.CustomErrorsPrefix | policy_as_code_manager.py:208-211 | an error in a prefix of the custom validators is the error of all |
| PolicyRegistry.StructuralChecks | policy_as_code_manager.py:162-202 | the checks that cannot raise give required, validator, action and dependency errors in order |
| PolicyRegistry.PolicyManager.ValidatePolicy | policy_as_code_manager.py:148-231 | the check-by-check method equals the reference `PolicyCheck` |
| PolicyRegistry.PolicyManager.UpdatePolicy | policy_as_code_manager.py:233-315 | result, registry and files are those of `UpdateSpec` |
| PolicyRegistry.PolicyManager.ImportPolicy | policy_as_code_manager.py:416-482 | one incoming policy is imported as `ImportOne` specifies |
| PolicyRegistry.PolicyManager.ImportFederatedPolicies | policy_as_code_manager.py:395-495 | results, registry and files are those of `ImportSpec` |
| PolicyRegistry.PolicyManager.ExportPoliciesForFederation | policy_as_code_manager.py:355-393 | returns `ExportSpec` over the saved files |
| PolicyRegistry.ImportOneAppends | policy_as_code_manager.py:416-482 | a policy's import depends on the earlier results only by appending |
| FederatedClient.TypeBumpMeaning | federated_client.py:345-352 | bumping a validator name adds one to its total, one to its failures iff it failed, and no other name changes |
| FederatedClient.TypeBumpCounted | federated_client.py:345-352 | bumping keeps every counter's failures within its total |
| FederatedClient.CountAllCompletes | federated_client.py:341-352 | the loop runs to the end iff every entry is a dict with a hashable name |
| FederatedClient.CountAllTotals | federated_client.py:341-352 | each name gains one per entry naming it, and one failure per such entry with status "fail" |
| FederatedClient.CountAllCounted | federated_client.py:341-352 | counting keeps every failure count within its total |
| FederatedClient.CountAllStops | federated_client.py:341-357 | after an entry raises, later entries change nothing |
| FederatedClient.MetricsAfterCounts | federated_client.py:334-337 | each update counts one validation, and a failure iff the result is not valid; the invariant is kept |
| FederatedClient.MetricsAfterTypes | federated_client.py:340-354 | countable entries grow per-name totals and record the policy version; a raising entry leaves it unrecorded |
| FederatedClient.TrackTypes | federated_client.py:341-352 | the loop computes `CountAll` |
| FederatedClient.ValidatePolicies | federated_client.py:228-262 | accepts iff the policies are a dict of dicts each with a list under "validators" |
| FederatedClient.FitMeaning | federated_client.py:107-152 | no examples leaves version and configs unchanged; one example iff a dict payload carries no error, a version usable by `+ 1`, valid policies and no hook failure; then the payload version, the merged configs and the metrics are installed |
| FederatedClient.Client.constructor | federated_client.py:40-58 | version 0, zero metrics, given configs |
| FederatedClient.Client.UpdateValidationMetrics | federated_client.py:325-357 | the new metrics are `MetricsAfter` of the old ones, keeping failures within the total |
| FederatedClient.Client.ApplyNewPolicies | federated_client.py:181-226 | succeeds iff the policies are valid and the hook did not raise; then the configs are merged, otherwise restored |
| FederatedClient.Client.Fit | federated_client.py:107-152 | the outcome is `FitSpec` of the old state |
| FederatedClient.Client.Evaluate | federated_client.py:154-179 | the loss is the failure rate, within [0, 1], and the examples are the validation total |
| FederatedServer.DefaultPoliciesAccepted | federated_server.py:91-102 | the default policies pass the client's policy validation |
| FederatedServer.FitSampleSize | federated_server.py:138-141 | the sample is exactly `min(max(min_fit_clients, n // 2), n)`: never more than all clients nor less than half, at least the minimum when enough clients are available, all of them when the minimum is not, and one of the three candidates |
| FederatedServer.RecordedMeaning | federated_server.py:193-202 | each reporting client's record holds its last report with this round and time; others are untouched |
| FederatedServer.ActiveCountMeaning | federated_server.py:339-342 | all clients are active iff every one reported within 300 seconds |
| FederatedServer.Strategy.constructor | federated_server.py:61-65 | missing initial policies start empty, at version 1 |
| FederatedServer.Strategy.InitializeParameters | federated_server.py:80-117 | defaults are installed only when there are no policies; the payload carries table and version |
| FederatedServer.Strategy.ConfigureFit | federated_server.py:119-157 | the sample size is `FitSampleSize`; the round configuration is round, version and one epoch |
| FederatedServer.Strategy.AggregateFit | federated_server.py:159-222 | client records are `Recorded` over the results; the aggregate counts successes and failures and maps clients to their metrics |
| FederatedServer.Strategy.Evaluate | federated_server.py:320-363 | total is the number of known clients, active is `ActiveCount`, and active is at most total |
| FederatedServer.Strategy.UpdatePolicies | federated_server.py:365-393 | succeeds iff the update is a dict; then it is merged and the version goes up by one, otherwise nothing changes |
| LlamaGuard.GetDevice | animalstyle/avonator_animalstyle_guardrailservice.py:52-56 | "auto" picks cuda iff a GPU is available; any other device is kept |
| LlamaGuard.PrepareInput | animalstyle/avonator_animalstyle_guardrailservice.py:143-147 | a non-empty context is framed before the text; otherwise the text alone |
| LlamaGuard.MatchingMeaning | animalstyle/avonator_animalstyle_guardrailservice.py:201-203 | a category is reported iff one of its keywords occurs, and nothing else is |
| LlamaGuard.ExtractViolations | animalstyle/avonator_animalstyle_guardrailservice.py:188-208 | never empty; the matching categories, or the generic message when none match |
| LlamaGuard.SelfHarmIsViolence | animalstyle/avonator_animalstyle_guardrailservice.py:193-196 | a self-harm keyword also reports violence, since "self-harm" contains "harm" |
| LlamaGuard.UnsafeContainsSafe | animalstyle/avonator_animalstyle_guardrailservice.py:180-182 | "unsafe" contains "safe", so only the first test can decide "safe" |
| LlamaGuard.ParseResult | animalstyle/avonator_animalstyle_guardrailservice.py:176-186 | after lower-casing and stripping: "safe" without "unsafe" is safe at 0.95; "unsafe" is unsafe with the violations at 0.9; anything else is unclear at 0.5 |
| LlamaGuard.Respond | animalstyle/avonator_animalstyle_guardrailservice.py:103-133 | safe iff the level is SAFE; an inference error gives the unsafe error response, otherwise the parsed verdict, confidence, violations and model info |
| LlamaGuard.Service.constructor | animalstyle/avonator_animalstyle_guardrailservice.py:40-45 | device resolved by `GetDevice`; nothing loaded |
| LlamaGuard.Service.LoadModel | animalstyle/avonator_animalstyle_guardrailservice.py:58-96 | nothing to do once loaded; loaded only after tokenizer and model are both in place; a failure raises "Model loading failed" |
| LlamaGuard.Service.Validate | animalstyle/avonator_animalstyle_guardrailservice.py:98-133 | an unloaded service loads first and a load failure propagates; otherwise the response is `Respond` |
| LlamaGuard.Service.ValidateBatch | animalstyle/avonator_animalstyle_guardrailservice.py:135-141 | one response per request, in order, unless loading fails; the model is loaded afterwards iff it was before or the batch was non-empty and loading succeeded |
| LlamaGuard.Service.HealthCheck | animalstyle/avonator_animalstyle_guardrailservice.py:210-223 | healthy iff loading succeeds and the greeting is classified safe without error; the model is loaded afterwards iff it was before or loading succeeded |
| LlamaGuard.Service.Cleanup | animalstyle/avonator_animalstyle_guardrailservice.py:225-233 | model and tokenizer released; the service is unloaded |
| Chatbot.MockLlmResponse | chatbot.py:88-109 | "hello" or "hi" in the lower-cased message gives the greeting; no keyword gives the fallback quoting the message; otherwise one of the fixed replies |
| Chatbot.GreetingShadowsWeather | chatbot.py:96-99 | "Is this weather nice?" is greeted, because "this" contains "hi" |
| Chatbot.ScanMeaning | chatbot.py:144-151 | the scan rejects iff some entry fails with "exception" and every earlier entry is a dict; it proceeds iff all entries are non-fatal dicts |
| Chatbot.GateRejectsOnlyFatal | chatbot.py:143-151 | a chat is rejected iff the verdict is an invalid dict with an iterable validation list holding such a fatal entry |
| Chatbot.ChatWith | chatbot.py:113-194 | a rejection carries a verdict that rejects; an answer carries both verdicts as dicts; under the corrected rule the answer is never null |
| Chatbot.CleanMessageCrashes | chatbot.py:154 | as written, a clean "hello" gets the internal error, because the null `processed_text` replaces the message |
| Chatbot.CleanMessageAnswered | chatbot.py:154-179 | with the correction, the same request is answered with the greeting |
| Chatbot.NullKeepsText | chatbot.py:154-179 | with `processed_text` null, the corrected rule keeps the text and the written rule gives null |

## Left out

- Network, HTTP framing, authentication, rate limiting, logging, Prometheus metrics, timing (`execution_time_ms`) and `asyncio` concurrency: the runs are sequential.
- spaCy, Stanza, Hugging Face, torch and the LlamaGuard model are abstract parameters. Their outputs are inputs to the model.
- NlpChecks.ValidateToxicity: the message omits the formatted score, because floating-point formatting is not modelled. NlpChecks.ValidateSentiment does the same.
- Floating-point scores and thresholds are modelled by the verdict they lead to, not as floats.
- Redis key expiry is not modelled. The MD5 digest of the cache key is taken to be collision-free, so the key is the record it hashes.
- Enhanced service: the request models' field checks (text length, stripping, TTL bounds, batch size 1 to 100) run before the endpoints and are not modelled; the endpoints receive requests that passed them. `return_confidence`, `return_metadata`, `model_info` and the timestamp are left out.
- EnhancedService.ValidateChunk: the texts of a chunk run one after another. `asyncio.gather` interleaves them at each `await`, so the order of cache reads and writes between texts of one chunk is not captured.
- The validators redact with `[<LABEL>_REDACTED]` (fastapi_guardrails.py:304). The `redaction_patterns` settings (for example `[ORGANIZATION_REDACTED]`) are never read, and the model follows the code.
- `start_service.py`, `simple_app.py`, the management CLIs, the monitoring setup, and the example and test scripts are not part of this model.
- Policy manager: disk loading of the registry, backups, `get_policy` by version, templates, YAML/JSON writing and the policy hash are left out.
  - Saved files are a map passed in, and the hash is a function parameter.
  - The type-error text "string indices must be integers, not 'str'" is the Python 3.11 wording.
  - PolicyChecks.MissingField names only the first missing argument, where CPython lists them all.
- Plugin system: the mock plugin's `validate_text` and `get_available_guardrails` and `load_plugin_from_module` are left out; they use dynamic imports. `get_active_plugin` is the manager's `active` field.
- Federated client:
  - `get_parameters`, pickle (de)serialisation, and `_save_local_policies` / `_load_local_policies` (disk) are left out. Payloads are `Values`.
  - The plugin's `update_configurations` hook is a boolean saying whether it raised.
  - The metrics lock is not modelled.
  - Validator names compare structurally; Python's `1 == True == 1.0` key equality is not modelled.
- Federated server:
  - The Flower networking, client sampling, `configure_evaluate` (its 0.3 fraction), `aggregate_evaluate` (weighted loss), `get_client_metrics`, and `_save_policies` / `_load_latest_policies` (disk) are left out. The same goes for the `FederatedGuardrailsServer` wrapper and its thread.
  - Times are reals passed in.
  - FederatedServer.Strategy.Evaluate: returns the counts only, not the float health score or loss.
  - FederatedServer.Strategy.constructor: does not model the optional reload of saved policies from disk.
- LlamaGuard:
  - Tokenisation, generation and truncation at 2048 tokens are the `infer` parameter.
  - `get_service` and the module-level `validate_text` / `validate_batch` are left out; they call a class name that the module does not define.
  - Lower-casing covers ASCII letters only.
- MockGuardrails.StepVerdicts: the profanity and toxic-language tests lower-case ASCII letters only. Python's `str.lower()` also folds other letters ("İ" becomes "i̇"), so a non-ASCII spelling of a listed word can fail in the service and pass in the model.
- Chatbot.MockLlmResponse: the keyword tests lower-case ASCII letters only. Python's `str.lower()` folds other letters too ("Hİ" is greeted by the service and gets the fallback in the model).
- PolicyChecks.IncrementVersionSemVer: version parts are parsed by `Text.ParseInt`, which accepts ASCII digits, signs, surrounding whitespace and single underscores. Python's `int()` also accepts other Unicode decimal digits (for example "١"); such versions take the fallback in the model.
- Chatbot: `health`, `get_config` and the `GuardrailsClient` HTTP code are left out. The client is the `guard` parameter, which returns the verdict or the client's error verdict.

## Findings

| source | as written | input that shows it | evidently intended | confidence | as-written member | corrected member |
|---|---|---|---|---|---|---|
| enhanced_guardrails.py:402 (reached from 683) | `generate_key` renders the context with `context.dict()`. `ValidationContext` is a standard-library dataclass (enhanced_guardrails.py:101-110), which has no `dict` method, so every present context raises `AttributeError`. The call runs before the `try` (:690), whenever Redis is connected and `skip_cache` is false. Both endpoints always pass a context (:783, :832), so both answer HTTP 500. | `{"text": "hello"}` to `/v1/guardrails/validate` with Redis connected | render the context with `dataclasses.asdict(context)` | not executed | EnhancedService.ValidateEndpointCrashes | EnhancedService.ValidateEndpointAnswers |
| chatbot.py:154 (and 179) | `input_validation.get('processed_text', user_message)` takes the key's value even when it is null. Every service in this repository sends `processed_text: null` for unchanged text (guardrails.py:161, fastapi_guardrails.py:384, enhanced_guardrails.py:738). `mock_llm_response(None)` then raises on `.lower()`. | `{"message": "hello"}` with a verdict that passes and leaves the text unchanged | use the processed text only when the service supplied one, and keep the message or reply otherwise | not executed | Chatbot.CleanMessageCrashes | Chatbot.CleanMessageAnswered |
