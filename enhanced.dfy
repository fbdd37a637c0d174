/** The enhanced FastAPI guardrails service: the same validation run as the
    first service, computed in three passes (plan the checks, run them, merge
    the verdicts), behind a Redis response cache, with a memoising model
    manager and a chunked batch endpoint. */
module EnhancedService {
  import opened Wrappers
  import opened Text
  import opened Verdicts
  import opened NlpChecks
  import Values

  /** The service's own `GUARDRAIL_CONFIGS`; `spam_detection` names no
      validator and is skipped. */
  const GuardrailConfigs: ConfigTable := [
    ("default", GuardrailConfig("Default guardrail with basic NLP validation", Some([
      Entry("length_check", "exception").(maxLength := Some(1000)),
      Entry("toxicity_check", "exception").(threshold := Some(0.7)),
      Entry("sentiment_check", "log").(threshold := Some(-0.5))]))),
    ("strict", GuardrailConfig("Strict content moderation", Some([
      Entry("length_check", "exception").(maxLength := Some(500)),
      Entry("toxicity_check", "exception").(threshold := Some(0.3)),
      Entry("sentiment_check", "exception").(threshold := Some(-0.3)),
      Entry("pii_detection", "filter"),
      Entry("spam_detection", "exception").(threshold := Some(0.8))]))),
    ("permissive", GuardrailConfig("Permissive content validation", Some([
      Entry("length_check", "log").(maxLength := Some(2000)),
      Entry("toxicity_check", "log").(threshold := Some(0.9))]))),
    ("batch_optimized", GuardrailConfig("Optimized for batch processing", Some([
      Entry("length_check", "exception").(maxLength := Some(1000)),
      Entry("toxicity_check", "exception").(threshold := Some(0.7))])))
  ]

  /** The planning pass: one task, with its on_fail, per recognised entry. */
  method PlanTasks(entries: seq<ValidatorEntry>) returns (r: Result<seq<Task>, Error>)
    ensures r == Plan(entries)
  {
    var tasks: seq<Task> := [];
    var i := 0;
    while i < |entries|
      invariant 0 <= i <= |entries|
      invariant Plan(entries[..i]) == Ok(tasks)
    {
      var entry := entries[i];
      PlanStep(entries, i);
      var keys := EntryKeys(entry);
      if keys.Err? {
        PlanPrefixError(entries, i + 1);
        return Err(keys.error);
      }
      var check := CheckOf(keys.value.0, entry);
      if check.Some? {
        tasks := tasks + [Task(check.value, keys.value.1)];
      }
      i := i + 1;
    }
    assert entries[..i] == entries;
    r := Ok(tasks);
  }

  /** The gathering pass: every check on the original text, in task order. */
  method Gather(tasks: seq<Task>, text: string, inf: Inference) returns (results: seq<ValidatorResult>)
    ensures |results| == |tasks|
    ensures forall k :: 0 <= k < |tasks| ==> results[k] == RunCheck(tasks[k].check, text, inf)
  {
    results := [];
    var j := 0;
    while j < |tasks|
      invariant 0 <= j <= |tasks|
      invariant |results| == j
      invariant forall k :: 0 <= k < j ==> results[k] == RunCheck(tasks[k].check, text, inf)
    {
      var result: ValidatorResult;
      if tasks[j].check.PiiCheck? {
        result := ValidatePii(text, inf.entities);
      } else {
        result := RunCheck(tasks[j].check, text, inf);
      }
      results := results + [result];
      j := j + 1;
    }
  }

  /** The merging pass over the gathered results zipped with the tasks'
      on_fail actions: overwrite on_fail, AND the statuses, keep the last
      redaction. */
  method MergeResults(tasks: seq<Task>, results: seq<ValidatorResult>, text: string, inf: Inference)
    returns (r: Response)
    requires |results| == |tasks|
    requires forall k :: 0 <= k < |tasks| ==> results[k] == RunCheck(tasks[k].check, text, inf)
    ensures r == Merge(text, Outcomes(tasks, text, inf))
  {
    var validations: seq<ValidatorResult> := [];
    var allPassed := true;
    var processed := text;
    var k := 0;
    while k < |results|
      invariant 0 <= k <= |results|
      invariant validations == Outcomes(tasks[..k], text, inf)
      invariant allPassed == AllPassed(validations)
      invariant processed == LastRedaction(text, validations)
    {
      var result := results[k].(onFailAction := tasks[k].onFail);
      assert tasks[..k + 1] == tasks[..k] + [tasks[k]];
      AppendTask(tasks[..k], tasks[k], text, inf);
      AppendResult(text, validations, result);
      validations := validations + [result];
      if result.status == Fail {
        allPassed := false;
        if result.metadata.Some? {
          processed := result.metadata.value.redactedText;
        }
      }
      k := k + 1;
    }
    assert tasks[..k] == tasks;
    r := Response(Success, "Validation completed successfully", allPassed, validations, Reported(text, processed));
  }

  /** `validate_text_with_guardrails` without the cache: plan, gather, merge. */
  method RunValidators(table: ConfigTable, text: string, name: string, inf: Inference) returns (r: Response)
    ensures r == Evaluate(table, text, name, inf)
  {
    var resolved := Resolve(table, name);
    if resolved.Err? {
      return InternalError(resolved.error);
    }
    if resolved.value.validators.None? {
      return InternalError(KeyError("validators"));
    }
    var planned := PlanTasks(resolved.value.validators.value);
    if planned.Err? {
      return InternalError(planned.error);
    }
    var results := Gather(planned.value, text, inf);
    r := MergeResults(planned.value, results, text, inf);
  }

  /** A `ValidationContext`: every field of the dataclass. */
  datatype Context = Context(
    userId: Option<string>,
    sessionId: Option<string>,
    requestId: Option<string>,
    tenantId: Option<string>,
    metadata: Option<seq<(string, Values.Value)>>,
    priority: string,
    timeout: Option<real>)

  function RequestIdOf(ctx: Option<Context>): Option<string>
  {
    if ctx.Some? then ctx.value.requestId else None
  }

  /** What `generate_key` hashes; the digest itself is taken to be
      collision-free, so the key is the hashed triple. */
  datatype CacheKey = CacheKey(text: string, guardrailName: string, context: Option<Context>)

  /** How `generate_key` renders the context. As written it calls
      `context.dict()`, a method a standard-library dataclass does not have;
      `AsDict` renders it with `dataclasses.asdict(context)`. */
  datatype KeyRule = DictMethod | AsDict

  /** The `AttributeError` that `context.dict()` raises. */
  const NoDictError := "'ValidationContext' object has no attribute 'dict'"

  /** `generate_key`. A dataclass instance is always truthy, so every present
      context is rendered. */
  function GenerateKey(text: string, name: string, ctx: Option<Context>, rule: KeyRule): Result<CacheKey, string>
  {
    match ctx
    case None => Ok(CacheKey(text, name, None))
    case Some(_) => if rule == DictMethod then Err(NoDictError) else Ok(CacheKey(text, name, ctx))
  }

  /** As written, a key exists only for a request without context; with the
      correction, two requests share a cache entry exactly when text,
      guardrail name and context all agree. */
  lemma GenerateKeyDistinguishes(t1: string, n1: string, c1: Option<Context>, t2: string, n2: string, c2: Option<Context>)
    ensures GenerateKey(t1, n1, c1, DictMethod) == Err(NoDictError) <==> c1.Some?
    ensures GenerateKey(t1, n1, c1, DictMethod).Ok? && GenerateKey(t2, n2, c2, DictMethod).Ok? ==>
              (GenerateKey(t1, n1, c1, DictMethod) == GenerateKey(t2, n2, c2, DictMethod) <==> t1 == t2 && n1 == n2)
    ensures GenerateKey(t1, n1, c1, AsDict).Ok?
    ensures GenerateKey(t1, n1, c1, AsDict) == GenerateKey(t2, n2, c2, AsDict) <==> t1 == t2 && n1 == n2 && c1 == c2
  {
  }

  /** A `ValidationResponse` with the fields the cache concerns. */
  datatype EnhancedResponse = EnhancedResponse(base: Response, cacheHit: bool, requestId: Option<string>)

  /** `CacheManager.get`: nothing while disconnected; a store error (`fault`)
      is logged and reads as a miss. */
  function CacheRead(connected: bool, store: map<CacheKey, EnhancedResponse>, key: CacheKey, fault: bool)
    : (r: Option<EnhancedResponse>)
    ensures r.Some? <==> connected && !fault && key in store
    ensures r.Some? ==> r.value == store[key]
  {
    if connected && !fault && key in store then Some(store[key]) else None
  }

  /** `CacheManager.set`: nothing while disconnected; a store error, including
      the one Redis raises for a TTL that is not positive, is logged and
      writes nothing. */
  function CacheWrite(connected: bool, store: map<CacheKey, EnhancedResponse>, key: CacheKey, value: EnhancedResponse,
                      ttl: int, fault: bool): (r: map<CacheKey, EnhancedResponse>)
    ensures !(connected && !fault && ttl > 0) ==> r == store
    ensures connected && !fault && ttl > 0 ==> key in r && r[key] == value
    ensures forall k :: k != key ==> (k in r <==> k in store) && (k in r ==> r[k] == store[k])
  {
    if connected && !fault && ttl > 0 then store[key := value] else store
  }

  /** The Redis connection, as the key/value store it holds; `connected` is
      false when `redis` is `None`. */
  class CacheManager {
    var connected: bool
    var store: map<CacheKey, EnhancedResponse>

    constructor(connected: bool)
      ensures this.connected == connected && store == map[]
    {
      this.connected := connected;
      store := map[];
    }

    method Get(key: CacheKey, fault: bool) returns (r: Option<EnhancedResponse>)
      ensures r == CacheRead(connected, store, key, fault)
    {
      if !connected {
        return None;
      }
      if fault || key !in store {
        return None;
      }
      r := Some(store[key]);
    }

    method Set(key: CacheKey, value: EnhancedResponse, ttl: int, fault: bool)
      modifies this
      ensures connected == old(connected)
      ensures store == CacheWrite(old(connected), old(store), key, value, ttl, fault)
    {
      if !connected {
        return;
      }
      if !fault && ttl > 0 {
        store := store[key := value];
      }
    }
  }

  /** The response an uncached run gives. */
  function Uncached(text: string, name: string, inf: Inference, ctx: Option<Context>): EnhancedResponse
  {
    EnhancedResponse(Evaluate(GuardrailConfigs, text, name, inf), false, RequestIdOf(ctx))
  }

  /** The reference meaning of the cached `validate_text_with_guardrails`:
      the response and the new store, or the exception that escapes it. With
      `skip_cache` false and a connection the key is generated first, outside
      the `try`; a stored response is returned as it is; otherwise the run is
      computed with `cache_hit` false, and only a successful run is written
      back. */
  function Serve(rule: KeyRule, connected: bool, store: map<CacheKey, EnhancedResponse>, text: string, name: string,
                 ctx: Option<Context>, ttl: int, skipCache: bool, inf: Inference, getFault: bool, setFault: bool)
    : Result<(EnhancedResponse, map<CacheKey, EnhancedResponse>), string>
  {
    if skipCache || !connected then Ok((Uncached(text, name, inf, ctx), store))
    else
      match GenerateKey(text, name, ctx, rule)
      case Err(e) => Err(e)
      case Ok(key) =>
        var cached := CacheRead(connected, store, key, getFault);
        if cached.Some? then Ok((cached.value, store))
        else
          var r := Uncached(text, name, inf, ctx);
          if r.base.status == Success then Ok((r, CacheWrite(connected, store, key, r, ttl, setFault)))
          else Ok((r, store))
  }

  /** `validate_text_with_guardrails`. */
  method ValidateTextWithGuardrails(cache: CacheManager, rule: KeyRule, text: string, name: string, ctx: Option<Context>,
                                    ttl: int, skipCache: bool, inf: Inference, getFault: bool, setFault: bool)
    returns (r: Result<EnhancedResponse, string>)
    modifies cache
    ensures cache.connected == old(cache.connected)
    ensures r.Err? <==> rule == DictMethod && old(cache.connected) && !skipCache && ctx.Some?
    ensures r.Ok? ==> Serve(rule, old(cache.connected), old(cache.store), text, name, ctx, ttl, skipCache, inf, getFault, setFault)
                      == Ok((r.value, cache.store))
    ensures r.Err? ==> Serve(rule, old(cache.connected), old(cache.store), text, name, ctx, ttl, skipCache, inf, getFault, setFault)
                       == Err(r.error)
                       && cache.store == old(cache.store)
  {
    var requestId := RequestIdOf(ctx);
    var useCache := !skipCache && cache.connected;
    var key := CacheKey(text, name, None);
    if useCache {
      var generated := GenerateKey(text, name, ctx, rule);
      if generated.Err? {
        return Err(generated.error);
      }
      key := generated.value;
      var cached := cache.Get(key, getFault);
      if cached.Some? {
        return Ok(cached.value);
      }
    }
    var base := RunValidators(GuardrailConfigs, text, name, inf);
    var response := EnhancedResponse(base, false, requestId);
    if base.status == Success && useCache {
      cache.Set(key, response, ttl, setFault);
    }
    r := Ok(response);
  }

  /** As written, a run that consults the cache raises exactly when the
      request carries a context; with the correction no run raises. */
  lemma ServeRaises(rule: KeyRule, connected: bool, store: map<CacheKey, EnhancedResponse>, text: string, name: string,
                    ctx: Option<Context>, ttl: int, skipCache: bool, inf: Inference, getFault: bool, setFault: bool)
    ensures Serve(rule, connected, store, text, name, ctx, ttl, skipCache, inf, getFault, setFault).Err? <==>
              rule == DictMethod && !skipCache && connected && ctx.Some?
    ensures Serve(rule, connected, store, text, name, ctx, ttl, skipCache, inf, getFault, setFault).Err? ==>
              Serve(rule, connected, store, text, name, ctx, ttl, skipCache, inf, getFault, setFault).error == NoDictError
  {
  }

  /** What a hit returns is the stored response, untouched, and the store is
      left as it was. */
  lemma ServeHit(rule: KeyRule, connected: bool, store: map<CacheKey, EnhancedResponse>, text: string, name: string,
                 ctx: Option<Context>, ttl: int, inf: Inference, setFault: bool)
    requires connected && GenerateKey(text, name, ctx, rule).Ok? && GenerateKey(text, name, ctx, rule).value in store
    ensures Serve(rule, connected, store, text, name, ctx, ttl, false, inf, false, setFault)
            == Ok((store[GenerateKey(text, name, ctx, rule).value], store))
  {
  }

  /** The store changes only on the success path of a cached, connected run
      with a positive TTL whose key could be generated, and then only under
      that key. */
  lemma ServeWrites(rule: KeyRule, connected: bool, store: map<CacheKey, EnhancedResponse>, text: string, name: string,
                    ctx: Option<Context>, ttl: int, skipCache: bool, inf: Inference, getFault: bool, setFault: bool)
    ensures var s := Serve(rule, connected, store, text, name, ctx, ttl, skipCache, inf, getFault, setFault);
            s.Ok? && s.value.1 != store ==>
              && !skipCache && connected && ttl > 0 && !setFault
              && GenerateKey(text, name, ctx, rule).Ok?
              && s.value.0 == Uncached(text, name, inf, ctx) && s.value.0.base.status == Success
              && s.value.1 == store[GenerateKey(text, name, ctx, rule).value := s.value.0]
    ensures var s := Serve(rule, connected, store, text, name, ctx, ttl, skipCache, inf, getFault, setFault);
            Evaluate(GuardrailConfigs, text, name, inf).status == Failure && s.Ok? ==> s.value.1 == store
  {
    var s := Serve(rule, connected, store, text, name, ctx, ttl, skipCache, inf, getFault, setFault);
    if s.Ok? && s.value.1 != store {
      var key := GenerateKey(text, name, ctx, rule).value;
      assert !skipCache && connected && ttl > 0 && !setFault;
      assert s.value.1 == store[key := s.value.0];
    }
  }

  /** A store whose every entry is the response the service computes for
      that entry's key, with `cache_hit` false as it was written. */
  predicate Consistent(store: map<CacheKey, EnhancedResponse>, infer: string -> Inference)
  {
    forall k :: k in store ==> store[k] == Uncached(k.text, k.guardrailName, infer(k.text), k.context)
  }

  /** Every response, hit or not, is what an uncached run returns: a
      consistent store stays consistent, and `cache_hit` is never true. With
      the corrected key every run answers. */
  lemma ServeTransparent(rule: KeyRule, connected: bool, store: map<CacheKey, EnhancedResponse>, text: string,
                         name: string, ctx: Option<Context>, ttl: int, skipCache: bool, infer: string -> Inference,
                         getFault: bool, setFault: bool)
    requires Consistent(store, infer)
    ensures var s := Serve(rule, connected, store, text, name, ctx, ttl, skipCache, infer(text), getFault, setFault);
            s.Ok? ==>
              && s.value.0 == Uncached(text, name, infer(text), ctx)
              && !s.value.0.cacheHit
              && Consistent(s.value.1, infer)
    ensures rule == AsDict ==> Serve(rule, connected, store, text, name, ctx, ttl, skipCache, infer(text), getFault, setFault).Ok?
  {
    var s := Serve(rule, connected, store, text, name, ctx, ttl, skipCache, infer(text), getFault, setFault);
    if s.Ok? && !skipCache && connected {
      var key := GenerateKey(text, name, ctx, rule).value;
      assert key.context == ctx;
      var store' := s.value.1;
      forall k | k in store'
        ensures store'[k] == Uncached(k.text, k.guardrailName, infer(k.text), k.context)
      {
        if k != key {
          assert k in store;
        }
      }
    }
  }

  /** `ServeTransparent` for one answered run, stated on its response and new
      store. */
  lemma ServeAnswered(rule: KeyRule, connected: bool, store: map<CacheKey, EnhancedResponse>, text: string,
                      name: string, ctx: Option<Context>, ttl: int, skipCache: bool, infer: string -> Inference,
                      getFault: bool, setFault: bool, response: EnhancedResponse, store': map<CacheKey, EnhancedResponse>)
    requires Consistent(store, infer)
    requires Serve(rule, connected, store, text, name, ctx, ttl, skipCache, infer(text), getFault, setFault)
             == Ok((response, store'))
    ensures response == Uncached(text, name, infer(text), ctx) && Consistent(store', infer)
  {
    ServeTransparent(rule, connected, store, text, name, ctx, ttl, skipCache, infer, getFault, setFault);
  }

  /** An error answered with an HTTP status. */
  datatype HttpError = HttpError(status: nat, detail: string)

  /** What both endpoints answer when an exception escapes their body. */
  const ServerError := HttpError(500, "Internal server error")

  /** The context the `/v1/guardrails/validate` endpoint builds: the request
      context's fields under request id `rid`, or the defaults when the
      request has none. */
  function RequestContext(ctx: Option<Context>, rid: string): (c: Context)
    ensures c.requestId == Some(rid)
    ensures ctx.Some? ==> c == ctx.value.(requestId := Some(rid))
    ensures ctx.None? ==> c == Context(None, None, Some(rid), None, None, "normal", None)
  {
    match ctx
    case None => Context(None, None, Some(rid), None, None, "normal", None)
    case Some(c) => c.(requestId := Some(rid))
  }

  /** The `/v1/guardrails/validate` endpoint on a request that passed its
      field checks: the run under a fresh context with request id
      `req_<stamp>`, where `stamp` is the millisecond clock; an exception
      escaping the run is answered with HTTP 500. */
  function ValidateEndpoint(rule: KeyRule, connected: bool, store: map<CacheKey, EnhancedResponse>, text: string,
                            name: string, ctx: Option<Context>, ttl: int, skipCache: bool, inf: Inference, stamp: nat,
                            getFault: bool, setFault: bool)
    : Result<(EnhancedResponse, map<CacheKey, EnhancedResponse>), HttpError>
  {
    var context := RequestContext(ctx, "req_" + IntToString(stamp));
    match Serve(rule, connected, store, text, name, Some(context), ttl, skipCache, inf, getFault, setFault)
    case Ok(served) => Ok(served)
    case Err(_) => Err(ServerError)
  }

  /** `validate_text`, the endpoint's body. */
  method ValidateText(cache: CacheManager, rule: KeyRule, text: string, name: string, ctx: Option<Context>, ttl: int,
                      skipCache: bool, inf: Inference, stamp: nat, getFault: bool, setFault: bool)
    returns (r: Result<EnhancedResponse, HttpError>)
    modifies cache
    ensures cache.connected == old(cache.connected)
    ensures r.Ok? ==> ValidateEndpoint(rule, old(cache.connected), old(cache.store), text, name, ctx, ttl, skipCache, inf,
                                       stamp, getFault, setFault) == Ok((r.value, cache.store))
    ensures r.Err? ==> ValidateEndpoint(rule, old(cache.connected), old(cache.store), text, name, ctx, ttl, skipCache, inf,
                                        stamp, getFault, setFault) == Err(r.error)
                       && cache.store == old(cache.store)
  {
    var context := RequestContext(ctx, "req_" + IntToString(stamp));
    var served := ValidateTextWithGuardrails(cache, rule, text, name, Some(context), ttl, skipCache, inf, getFault, setFault);
    if served.Err? {
      return Err(ServerError);
    }
    r := Ok(served.value);
  }

  /** As written, every request the endpoint serves through a connected
      cache is answered with HTTP 500, "hello" included. */
  lemma ValidateEndpointCrashes(store: map<CacheKey, EnhancedResponse>, text: string, name: string, ctx: Option<Context>,
                                ttl: int, inf: Inference, stamp: nat, getFault: bool, setFault: bool)
    ensures ValidateEndpoint(DictMethod, true, store, text, name, ctx, ttl, false, inf, stamp, getFault, setFault)
            == Err(ServerError)
    ensures ValidateEndpoint(DictMethod, true, store, "hello", "default", None, 300, false, inf, stamp, false, false)
            == Err(ServerError)
  {
  }

  /** With the corrected key the endpoint always answers: over a consistent
      store, with the uncached verdict under the request id `req_<stamp>`,
      and the store stays consistent. */
  lemma ValidateEndpointAnswers(store: map<CacheKey, EnhancedResponse>, connected: bool, text: string, name: string,
                                ctx: Option<Context>, ttl: int, skipCache: bool, infer: string -> Inference, stamp: nat,
                                getFault: bool, setFault: bool)
    requires Consistent(store, infer)
    ensures var e := ValidateEndpoint(AsDict, connected, store, text, name, ctx, ttl, skipCache, infer(text), stamp,
                                      getFault, setFault);
            && e.Ok?
            && e.value.0.base == Evaluate(GuardrailConfigs, text, name, infer(text))
            && e.value.0.requestId == Some("req_" + IntToString(stamp))
            && !e.value.0.cacheHit
            && Consistent(e.value.1, infer)
  {
    var context := RequestContext(ctx, "req_" + IntToString(stamp));
    ServeTransparent(AsDict, connected, store, text, name, Some(context), ttl, skipCache, infer, getFault, setFault);
  }

  /** An opaque model or pipeline handle. */
  datatype Model = Model(handle: string)

  predicate KnownModelType(modelType: string)
  {
    modelType == "spacy" || modelType == "stanza" || modelType == "huggingface"
  }

  /** The memoising model loader. `load(kind, name)` stands for the library
      loader of that kind; `elapsed` for the measured load time. */
  class ModelManager {
    var models: map<string, Model>
    var pipelines: map<string, Model>
    var loadTimes: map<string, real>

    /** Every cached model and pipeline has its load time recorded. */
    ghost predicate Valid()
      reads this
    {
      && (forall k :: k in models ==> k in loadTimes)
      && (forall p :: p in pipelines ==> "pipeline_" + p in loadTimes)
    }

    constructor()
      ensures Valid() && models == map[] && pipelines == map[] && loadTimes == map[]
    {
      models := map[];
      pipelines := map[];
      loadTimes := map[];
    }

    /** `get_model`: a cached key returns its model without loading; an
        unknown type or a failed load raises and caches nothing. */
    method GetModel(modelName: string, modelType: string, load: (string, string) -> Result<Model, string>, elapsed: real)
      returns (r: Result<Model, string>)
      requires Valid()
      modifies this
      ensures Valid()
      ensures pipelines == old(pipelines)
      ensures var key := modelType + "_" + modelName;
              if key in old(models) then
                r == Ok(old(models)[key]) && models == old(models) && loadTimes == old(loadTimes)
              else if !KnownModelType(modelType) then
                r == Err("Unknown model type: " + modelType) && models == old(models) && loadTimes == old(loadTimes)
              else
                && r == load(modelType, modelName)
                && (r.Ok? ==> models == old(models)[key := r.value] && loadTimes == old(loadTimes)[key := elapsed])
                && (r.Err? ==> models == old(models) && loadTimes == old(loadTimes))
    {
      var key := modelType + "_" + modelName;
      if key in models {
        return Ok(models[key]);
      }
      if !KnownModelType(modelType) {
        return Err("Unknown model type: " + modelType);
      }
      r := load(modelType, modelName);
      if r.Ok? {
        models := models[key := r.value];
        loadTimes := loadTimes[key := elapsed];
      }
    }

    /** `get_pipeline`: memoised by pipeline name; a Hugging Face load. */
    method GetPipeline(pipelineName: string, modelName: string, load: (string, string) -> Result<Model, string>,
                       elapsed: real)
      returns (r: Result<Model, string>)
      requires Valid()
      modifies this
      ensures Valid()
      ensures models == old(models)
      ensures if pipelineName in old(pipelines) then
                r == Ok(old(pipelines)[pipelineName]) && pipelines == old(pipelines) && loadTimes == old(loadTimes)
              else
                && r == load("huggingface", modelName)
                && (r.Ok? ==> pipelines == old(pipelines)[pipelineName := r.value]
                              && loadTimes == old(loadTimes)["pipeline_" + pipelineName := elapsed])
                && (r.Err? ==> pipelines == old(pipelines) && loadTimes == old(loadTimes))
    {
      if pipelineName in pipelines {
        return Ok(pipelines[pipelineName]);
      }
      r := load("huggingface", modelName);
      if r.Ok? {
        pipelines := pipelines[pipelineName := r.value];
        loadTimes := loadTimes["pipeline_" + pipelineName := elapsed];
      }
    }
  }

  datatype BatchResponse = BatchResponse(
    status: string,
    message: string,
    results: seq<EnhancedResponse>,
    totalProcessed: nat,
    totalValid: nat,
    cacheHits: nat,
    cacheMisses: nat)

  function CountHits(rs: seq<EnhancedResponse>): (n: nat)
    ensures n <= |rs|
  {
    if rs == [] then 0 else CountHits(rs[..|rs| - 1]) + (if rs[|rs| - 1].cacheHit then 1 else 0)
  }

  function CountValid(rs: seq<EnhancedResponse>): (n: nat)
    ensures n <= |rs|
  {
    if rs == [] then 0 else CountValid(rs[..|rs| - 1]) + (if rs[|rs| - 1].base.valid then 1 else 0)
  }

  lemma {:induction false} CountHitsAppend(a: seq<EnhancedResponse>, b: seq<EnhancedResponse>)
    ensures CountHits(a + b) == CountHits(a) + CountHits(b)
    decreases |b|
  {
    if b == [] {
      assert a + b == a;
    } else {
      assert (a + b)[..|a + b| - 1] == a + b[..|b| - 1];
      CountHitsAppend(a, b[..|b| - 1]);
    }
  }

  /** The hit/miss tally of one chunk's responses. */
  method CountChunk(rs: seq<EnhancedResponse>) returns (hits: nat, misses: nat)
    ensures hits == CountHits(rs) && hits + misses == |rs|
  {
    hits, misses := 0, 0;
    var m := 0;
    while m < |rs|
      invariant 0 <= m <= |rs|
      invariant hits == CountHits(rs[..m]) && hits + misses == m
    {
      assert rs[..m + 1][..m] == rs[..m];
      if rs[m].cacheHit {
        hits := hits + 1;
      } else {
        misses := misses + 1;
      }
      m := m + 1;
    }
    assert rs[..m] == rs;
  }

  /** With no response marked as a hit, the hit count is zero. */
  lemma {:induction false} CountHitsNone(rs: seq<EnhancedResponse>)
    requires forall i :: 0 <= i < |rs| ==> !rs[i].cacheHit
    ensures CountHits(rs) == 0
  {
    if rs != [] {
      CountHitsNone(rs[..|rs| - 1]);
    }
  }

  /** The context one text of the chunk starting at `start` is validated
      under: the request context's fields except `timeout`, which the batch
      leaves at its default, and request id `batch_<stamp>_<start>`, where
      `stamp` is the millisecond clock read for that text. */
  function BatchContext(ctx: Option<Context>, stamp: nat, start: nat): (c: Context)
    ensures c.requestId == Some("batch_" + IntToString(stamp) + "_" + IntToString(start))
    ensures c.timeout == None
    ensures ctx.Some? ==> c == ctx.value.(requestId := c.requestId, timeout := None)
    ensures ctx.None? ==> c == Context(None, None, c.requestId, None, None, "normal", None)
  {
    var rid := Some("batch_" + IntToString(stamp) + "_" + IntToString(start));
    match ctx
    case None => Context(None, None, rid, None, None, "normal", None)
    case Some(c) => c.(requestId := rid, timeout := None)
  }

  /** The start of the chunk of `size` positions that holds position `k`. */
  function ChunkStartOf(k: nat, size: nat): (start: nat)
    requires size > 0
    ensures start <= k < start + size
  {
    if k < size then 0 else ChunkStartOf(k - size, size) + size
  }

  /** Every position of the chunk that starts at a chunk start belongs to it. */
  lemma {:induction false} ChunkStartWithin(k: nat, start: nat, size: nat)
    requires size > 0 && ChunkStartOf(start, size) == start && start <= k < start + size
    ensures ChunkStartOf(k, size) == start
    decreases start
  {
    if start >= size {
      ChunkStartWithin(k - size, start - size, size);
    }
  }

  /** The response position `k` of a batch gets from a consistent store:
      the uncached run under its own context. */
  function BatchUncached(texts: seq<string>, k: nat, size: nat, name: string, infer: string -> Inference,
                         ctx: Option<Context>, stamp: nat -> nat): EnhancedResponse
    requires k < |texts| && size > 0
  {
    Uncached(texts[k], name, infer(texts[k]), Some(BatchContext(ctx, stamp(k), ChunkStartOf(k, size))))
  }

  /** The validation of one chunk, text after text, text `j` under its own
      context. As written, with a connected cache and `skip_cache` false,
      every text's key generation raises before anything is read or written,
      so the chunk raises. */
  method ValidateChunk(cache: CacheManager, rule: KeyRule, texts: seq<string>, start: nat, end: nat, name: string,
                       ctx: Option<Context>, stamp: nat -> nat, ttl: int, skipCache: bool,
                       infer: string -> Inference, getFault: nat -> bool, setFault: nat -> bool)
    returns (rs: Result<seq<EnhancedResponse>, string>)
    requires start <= end <= |texts|
    modifies cache
    ensures cache.connected == old(cache.connected)
    ensures rs.Err? <==> start < end && rule == DictMethod && old(cache.connected) && !skipCache
    ensures rs.Err? ==> rs.error == NoDictError && cache.store == old(cache.store)
    ensures rs.Ok? ==> |rs.value| == end - start
    ensures rs.Ok? && Consistent(old(cache.store), infer) ==>
              && Consistent(cache.store, infer)
              && forall k :: 0 <= k < |rs.value| ==>
                   rs.value[k] == Uncached(texts[start + k], name, infer(texts[start + k]),
                                           Some(BatchContext(ctx, stamp(start + k), start)))
  {
    ghost var consistent := Consistent(cache.store, infer);
    var raises := rule == DictMethod && cache.connected && !skipCache;
    var chunk: seq<EnhancedResponse> := [];
    var j := start;
    while j < end
      invariant start <= j <= end
      invariant |chunk| == j - start
      invariant cache.connected == old(cache.connected)
      invariant raises ==> j == start && cache.store == old(cache.store)
      invariant consistent ==> Consistent(cache.store, infer)
      invariant consistent ==> forall k :: 0 <= k < |chunk| ==>
                  chunk[k] == Uncached(texts[start + k], name, infer(texts[start + k]),
                                       Some(BatchContext(ctx, stamp(start + k), start)))
    {
      var context := Some(BatchContext(ctx, stamp(j), start));
      ghost var before := cache.store;
      var res := ValidateTextWithGuardrails(cache, rule, texts[j], name, context, ttl, skipCache, infer(texts[j]),
                                            getFault(j), setFault(j));
      if res.Err? {
        return Err(res.error);
      }
      if consistent {
        ServeAnswered(rule, cache.connected, before, texts[j], name, context, ttl, skipCache, infer,
                      getFault(j), setFault(j), res.value, cache.store);
      }
      chunk := chunk + [res.value];
      j := j + 1;
    }
    rs := Ok(chunk);
  }

  /** One chunk's responses extend those of the chunks before it. */
  lemma ExtendResults(results: seq<EnhancedResponse>, chunk: seq<EnhancedResponse>, texts: seq<string>,
                      start: nat, end: nat, size: nat, name: string, infer: string -> Inference,
                      ctx: Option<Context>, stamp: nat -> nat)
    requires size > 0 && ChunkStartOf(start, size) == start
    requires |results| == start && start <= end <= |texts| && end <= start + size && |chunk| == end - start
    requires forall k :: 0 <= k < start ==> results[k] == BatchUncached(texts, k, size, name, infer, ctx, stamp)
    requires forall k :: 0 <= k < |chunk| ==>
               chunk[k] == Uncached(texts[start + k], name, infer(texts[start + k]),
                                    Some(BatchContext(ctx, stamp(start + k), start)))
    ensures forall k :: 0 <= k < end ==> (results + chunk)[k] == BatchUncached(texts, k, size, name, infer, ctx, stamp)
  {
    forall k | start <= k < end
      ensures (results + chunk)[k] == BatchUncached(texts, k, size, name, infer, ctx, stamp)
    {
      ChunkStartWithin(k, start, size);
      assert (results + chunk)[k] == chunk[k - start];
    }
  }

  /** `sum(1 for result in results if result.valid)`. */
  method CountValidResults(rs: seq<EnhancedResponse>) returns (n: nat)
    ensures n == CountValid(rs)
  {
    n := 0;
    var v := 0;
    while v < |rs|
      invariant 0 <= v <= |rs|
      invariant n == CountValid(rs[..v])
    {
      assert rs[..v + 1][..v] == rs[..v];
      if rs[v].base.valid {
        n := n + 1;
      }
      v := v + 1;
    }
    assert rs[..v] == rs;
  }

  /** `min(settings.BATCH_SIZE, len(texts))`, the chunk size. */
  function ChunkSize(batchSize: int, n: nat): int
  {
    if batchSize < n then batchSize else n
  }

  /** The `validate_batch` endpoint: chunks of `min(BATCH_SIZE, len(texts))`
      texts, each text validated under its chunk's request id, hits and
      misses counted per response. `batchSize` is the `BATCH_SIZE`
      environment setting (32 when unset). A chunk size of zero makes
      `range` raise; a negative one makes the range empty. As written, a
      connected cache with `skip_cache` false makes the first chunk raise.
      Every exception is answered with HTTP 500. `stamp(i)` stands for the
      millisecond clock read for text `i`; text `i` is validated with model
      outputs `infer(texts[i])` and store errors `getFault(i)`,
      `setFault(i)`. */
  method ValidateBatch(cache: CacheManager, rule: KeyRule, texts: seq<string>, name: string, ctx: Option<Context>,
                       ttl: int, skipCache: bool, infer: string -> Inference, batchSize: int, stamp: nat -> nat,
                       getFault: nat -> bool, setFault: nat -> bool)
    returns (r: Result<BatchResponse, HttpError>)
    modifies cache
    ensures cache.connected == old(cache.connected)
    ensures r.Err? <==>
              || ChunkSize(batchSize, |texts|) == 0
              || (ChunkSize(batchSize, |texts|) > 0 && rule == DictMethod && old(cache.connected) && !skipCache)
    ensures r.Err? ==> r.error == ServerError && cache.store == old(cache.store)
    ensures r.Ok? ==>
              && r.value.status == "success"
              && |r.value.results| == r.value.totalProcessed
              && |r.value.results| == (if ChunkSize(batchSize, |texts|) < 0 then 0 else |texts|)
              && r.value.cacheHits == CountHits(r.value.results)
              && r.value.cacheHits + r.value.cacheMisses == r.value.totalProcessed
              && r.value.totalValid == CountValid(r.value.results) <= r.value.totalProcessed
    ensures r.Ok? && ChunkSize(batchSize, |texts|) > 0 && Consistent(old(cache.store), infer) ==>
              && Consistent(cache.store, infer)
              && r.value.cacheHits == 0
              && forall k :: 0 <= k < |texts| ==>
                   r.value.results[k] == BatchUncached(texts, k, ChunkSize(batchSize, |texts|), name, infer, ctx, stamp)
  {
    var size := ChunkSize(batchSize, |texts|);
    if size == 0 {
      // range() arg 3 must not be zero
      return Err(ServerError);
    }
    var results: seq<EnhancedResponse> := [];
    var hits: nat := 0;
    var misses: nat := 0;
    if size > 0 {
      ghost var consistent := Consistent(cache.store, infer);
      var i := 0;
      while i < |texts|
        invariant ChunkStartOf(i, size) == i
        invariant |results| == (if i < |texts| then i else |texts|)
        invariant cache.connected == old(cache.connected)
        invariant (rule == DictMethod && cache.connected && !skipCache) ==> i == 0 && cache.store == old(cache.store)
        invariant hits == CountHits(results) && hits + misses == |results|
        invariant consistent ==> Consistent(cache.store, infer)
        invariant consistent ==> forall k :: 0 <= k < |results| ==>
                    results[k] == BatchUncached(texts, k, size, name, infer, ctx, stamp)
      {
        var end := if i + size < |texts| then i + size else |texts|;
        var batchResults := ValidateChunk(cache, rule, texts, i, end, name, ctx, stamp, ttl, skipCache,
                                          infer, getFault, setFault);
        if batchResults.Err? {
          return Err(ServerError);
        }
        var chunkHits, chunkMisses := CountChunk(batchResults.value);
        CountHitsAppend(results, batchResults.value);
        hits := hits + chunkHits;
        misses := misses + chunkMisses;
        if consistent {
          ExtendResults(results, batchResults.value, texts, i, end, size, name, infer, ctx, stamp);
        }
        results := results + batchResults.value;
        i := i + size;
      }
      if consistent {
        CountHitsNone(results);
      }
    }
    var totalValid := CountValidResults(results);
    r := Ok(BatchResponse("success", "Batch validation completed: " + IntToString(|results|) + " texts processed",
                          results, |results|, totalValid, hits, misses));
  }
}
