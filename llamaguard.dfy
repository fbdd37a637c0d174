/** The standalone LlamaGuard safety service: it frames the text to classify,
    reads the model's verdict out of its generated text, names the violated
    categories, and loads and releases the model. The model itself is a
    function parameter `infer` from the framed input to its generated text
    or the exception it raised; generation is greedy, so it is a function. */
module LlamaGuard {
  import opened Wrappers
  import opened Text

  /** `_get_device`: "auto" picks the GPU when there is one. */
  function GetDevice(device: string, cudaAvailable: bool): (r: string)
    ensures device != "auto" ==> r == device
    ensures device == "auto" ==> (r == "cuda" <==> cudaAvailable) && (r == "cpu" <==> !cudaAvailable)
  {
    if device == "auto" then (if cudaAvailable then "cuda" else "cpu") else device
  }

  /** `_prepare_input`: a non-empty context is put in front of the text. */
  function PrepareInput(text: string, context: Option<string>): (r: string)
    ensures context.None? || context.value == [] ==> r == text
    ensures context.Some? && context.value != [] ==>
              |r| == |context.value| + |text| + 17 && r[..9] == "Context: " && r[|r| - |text|..] == text
  {
    if context.Some? && context.value != [] then "Context: " + context.value + "\n\nText: " + text else text
  }

  /** The violation categories and the keywords that reveal each, in order. */
  function Categories(): seq<(string, seq<string>)>
  {
    [("violence", ["violence", "violent", "harm"]),
     ("hate_speech", ["hate", "discrimination", "racist"]),
     ("harassment", ["harassment", "bullying"]),
     ("self_harm", ["self-harm", "suicide"]),
     ("sexual", ["sexual", "explicit"]),
     ("illegal", ["illegal", "criminal"])]
  }

  predicate AnyKeyword(result: string, keywords: seq<string>)
  {
    exists k :: 0 <= k < |keywords| && Contains(result, keywords[k])
  }

  function Detected(category: string): string
  {
    "Detected " + category + " content"
  }

  /** The messages of the categories some keyword of which occurs, in order. */
  function Matching(result: string, cats: seq<(string, seq<string>)>): seq<string>
  {
    if cats == [] then []
    else
      var last := cats[|cats| - 1];
      Matching(result, cats[..|cats| - 1]) + if AnyKeyword(result, last.1) then [Detected(last.0)] else []
  }

  /** A category is reported exactly when one of its keywords occurs, and
      nothing else is reported. */
  lemma {:induction false} MatchingMeaning(result: string, cats: seq<(string, seq<string>)>)
    ensures |Matching(result, cats)| <= |cats|
    ensures forall i :: 0 <= i < |cats| && AnyKeyword(result, cats[i].1) ==> Detected(cats[i].0) in Matching(result, cats)
    ensures forall m :: m in Matching(result, cats) ==>
              exists i :: 0 <= i < |cats| && AnyKeyword(result, cats[i].1) && m == Detected(cats[i].0)
  {
    if cats != [] {
      var init := cats[..|cats| - 1];
      MatchingMeaning(result, init);
      assert forall i :: 0 <= i < |init| ==> init[i] == cats[i];
    }
  }

  /** `_extract_violations`: the matching categories, or a generic message
      when none matches, so the list is never empty. */
  function ExtractViolations(result: string): (r: seq<string>)
    ensures r != []
    ensures Matching(result, Categories()) == [] ==> r == ["Content violates safety guidelines"]
    ensures Matching(result, Categories()) != [] ==> r == Matching(result, Categories())
  {
    var found := Matching(result, Categories());
    if found == [] then ["Content violates safety guidelines"] else found
  }

  /** "self-harm" contains "harm", so a self-harm keyword reports violence too. */
  lemma SelfHarmIsViolence(result: string)
    requires Contains(result, "self-harm")
    ensures Detected("violence") in ExtractViolations(result)
  {
    ContainsAt(result, "self-harm");
    var i :| 0 <= i <= |result| && "self-harm" <= result[i..];
    var w := result[i..];
    assert w[..9] == "self-harm";
    assert result[i + 5..i + 9] == w[5..9] == "harm";
    assert result == result[..i + 5] + result[i + 5..i + 9] + result[i + 9..];
    ContainsMiddle(result[..i + 5], "harm", result[i + 9..]);
    var cats := Categories();
    assert cats[0].1[2] == "harm";
    assert Contains(result, cats[0].1[2]);
    assert AnyKeyword(result, cats[0].1);
    MatchingMeaning(result, cats);
  }

  /** "unsafe" contains "safe". */
  lemma UnsafeContainsSafe(result: string)
    requires Contains(result, "unsafe")
    ensures Contains(result, "safe")
  {
    ContainsAt(result, "unsafe");
    var i :| 0 <= i <= |result| && "unsafe" <= result[i..];
    assert result[i + 2..][..4] == "safe";
    assert result == result[..i + 2] + "safe" + result[i + 6..];
    ContainsMiddle(result[..i + 2], "safe", result[i + 6..]);
  }

  datatype Verdict = Verdict(isSafe: bool, violations: seq<string>, confidence: real)

  /** `_parse_result`: after lower-casing and stripping, "safe" without
      "unsafe" is safe; "unsafe" is unsafe with the violated categories;
      anything else is unclear. */
  function ParseResult(raw: string): (r: Verdict)
    ensures var s := Strip(Lower(raw));
            && (r.isSafe <==> Contains(s, "safe") && !Contains(s, "unsafe"))
            && (r.isSafe ==> r == Verdict(true, [], 0.95))
            && (Contains(s, "unsafe") ==> r == Verdict(false, ExtractViolations(s), 0.9))
            && (!Contains(s, "safe") ==> r == Verdict(false, ["Content classification unclear"], 0.5))
            && (r.isSafe <==> r.violations == [])
  {
    var s := Strip(Lower(raw));
    if Contains(s, "safe") && !Contains(s, "unsafe") then Verdict(true, [], 0.95)
    else if Contains(s, "unsafe") then
      UnsafeContainsSafe(s);
      Verdict(false, ExtractViolations(s), 0.9)
    else Verdict(false, ["Content classification unclear"], 0.5)
  }

  datatype SafetyLevel = Safe | Unsafe

  datatype ModelInfo = Info(model: string, device: string, inputLength: nat) | ErrorInfo

  datatype ValidationRequest = ValidationRequest(text: string, context: Option<string>)

  datatype ValidationResponse = ValidationResponse(
    isSafe: bool,
    safetyLevel: SafetyLevel,
    confidence: real,
    violations: seq<string>,
    modelInfo: ModelInfo)

  /** The part of `validate` inside its `try`: frame, infer, parse; an
      inference exception becomes an unsafe error response. */
  function Respond(modelName: string, device: string, request: ValidationRequest,
                   infer: string -> Result<string, string>): (r: ValidationResponse)
    ensures r.isSafe <==> r.safetyLevel == Safe
    ensures infer(PrepareInput(request.text, request.context)).Err? ==>
              && !r.isSafe && r.confidence == 0.0 && r.modelInfo == ErrorInfo
              && r.violations == ["Validation error: " + infer(PrepareInput(request.text, request.context)).error]
    ensures infer(PrepareInput(request.text, request.context)).Ok? ==>
              && r.isSafe == ParseResult(infer(PrepareInput(request.text, request.context)).value).isSafe
              && r.confidence == ParseResult(infer(PrepareInput(request.text, request.context)).value).confidence
              && r.violations == ParseResult(infer(PrepareInput(request.text, request.context)).value).violations
              && r.modelInfo == Info(modelName, device, |PrepareInput(request.text, request.context)|)
  {
    var input := PrepareInput(request.text, request.context);
    match infer(input)
    case Err(e) => ValidationResponse(false, Unsafe, 0.0, ["Validation error: " + e], ErrorInfo)
    case Ok(output) =>
      var v := ParseResult(output);
      ValidationResponse(v.isSafe, if v.isSafe then Safe else Unsafe, v.confidence, v.violations,
                         Info(modelName, device, |input|))
  }

  /** How `load_model` fails: before the tokenizer is set, or after it. */
  datatype LoadFailure = NoFailure | TokenizerFails(message: string) | ModelFails(message: string)

  function LoadError(f: LoadFailure): string
    requires !f.NoFailure?
  {
    "Model loading failed: " + f.message
  }

  /** `validate_batch` from a service that is loaded (or loads) or not. */
  function BatchSpec(loaded: bool, modelName: string, device: string, requests: seq<ValidationRequest>,
                     failure: LoadFailure, infer: string -> Result<string, string>): Result<seq<ValidationResponse>, string>
  {
    if requests == [] then Ok([])
    else if loaded || failure.NoFailure? then
      Ok(seq(|requests|, i requires 0 <= i < |requests| => Respond(modelName, device, requests[i], infer)))
    else Err(LoadError(failure))
  }

  class Service {
    const modelName: string
    const device: string
    var loaded: bool
    var hasModel: bool
    var hasTokenizer: bool

    constructor(modelName: string, device: string, cudaAvailable: bool)
      ensures this.modelName == modelName && this.device == GetDevice(device, cudaAvailable)
      ensures !loaded && !hasModel && !hasTokenizer
    {
      this.modelName := modelName;
      this.device := GetDevice(device, cudaAvailable);
      loaded := false;
      hasModel := false;
      hasTokenizer := false;
    }

    /** `load_model`: nothing to do once loaded; the loaded flag is set only
        after both the tokenizer and the model are in place, and a failure
        is raised as a `RuntimeError`. */
    method LoadModel(failure: LoadFailure) returns (error: Option<string>)
      modifies this
      ensures old(loaded) ==> error.None? && unchanged(this)
      ensures !old(loaded) ==> match failure
                case NoFailure => error.None? && loaded && hasModel && hasTokenizer
                case TokenizerFails(_) => error == Some(LoadError(failure)) && unchanged(this)
                case ModelFails(_) => error == Some(LoadError(failure)) && !loaded && hasTokenizer && hasModel == old(hasModel)
    {
      if loaded {
        return None;
      }
      if failure.TokenizerFails? {
        return Some(LoadError(failure));
      }
      hasTokenizer := true;
      if failure.ModelFails? {
        return Some(LoadError(failure));
      }
      hasModel := true;
      loaded := true;
      error := None;
    }

    /** `validate`: an unloaded service loads first, and a loading failure
        propagates; otherwise the response of `Respond`. */
    method Validate(request: ValidationRequest, failure: LoadFailure, infer: string -> Result<string, string>)
      returns (r: Result<ValidationResponse, string>)
      modifies this
      ensures loaded == (old(loaded) || failure.NoFailure?)
      ensures r == if old(loaded) || failure.NoFailure? then Ok(Respond(modelName, device, request, infer))
                   else Err(LoadError(failure))
    {
      if !loaded {
        var error := LoadModel(failure);
        if error.Some? {
          return Err(error.value);
        }
      }
      r := Ok(Respond(modelName, device, request, infer));
    }

    /** `validate_batch`: one response per request, in order, unless the
        first one's loading fails. */
    method ValidateBatch(requests: seq<ValidationRequest>, failure: LoadFailure, infer: string -> Result<string, string>)
      returns (r: Result<seq<ValidationResponse>, string>)
      modifies this
      ensures r == BatchSpec(old(loaded), modelName, device, requests, failure, infer)
      ensures r.Ok? ==> |r.value| == |requests|
      ensures loaded == (old(loaded) || (requests != [] && failure.NoFailure?))
    {
      var results: seq<ValidationResponse> := [];
      var i := 0;
      while i < |requests|
        invariant 0 <= i <= |requests|
        invariant i > 0 ==> loaded && (old(loaded) || failure.NoFailure?)
        invariant i == 0 ==> loaded == old(loaded)
        invariant |results| == i
        invariant forall j :: 0 <= j < i ==> results[j] == Respond(modelName, device, requests[j], infer)
      {
        var one := Validate(requests[i], failure, infer);
        if one.Err? {
          return Err(one.error);
        }
        results := results + [one.value];
        i := i + 1;
      }
      assert results == seq(|requests|, j requires 0 <= j < |requests| => Respond(modelName, device, requests[j], infer));
      r := Ok(results);
    }

    /** `health_check`: a loading failure is caught as unhealthy; otherwise
        the greeting must be classified safe without an error. */
    method HealthCheck(failure: LoadFailure, infer: string -> Result<string, string>) returns (healthy: bool)
      modifies this
      ensures loaded == (old(loaded) || failure.NoFailure?)
      ensures var resp := Respond(modelName, device, ValidationRequest("Hello, how are you?", None), infer);
              healthy <==> (old(loaded) || failure.NoFailure?) && resp.isSafe && !resp.modelInfo.ErrorInfo?
    {
      var r := Validate(ValidationRequest("Hello, how are you?", None), failure, infer);
      if r.Err? {
        return false;
      }
      healthy := r.value.isSafe && !r.value.modelInfo.ErrorInfo?;
    }

    /** `cleanup`: the model and tokenizer are released and the service is
        unloaded. */
    method Cleanup()
      modifies this
      ensures !loaded && !hasModel && !hasTokenizer
    {
      hasModel := false;
      hasTokenizer := false;
      loaded := false;
    }
  }
}
