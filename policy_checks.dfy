/** What the policy-as-code manager decides without touching its registry:
    the structural policy check, the custom-validator code check, version
    increments and the metadata record. */
module PolicyChecks {
  import opened Wrappers
  import opened Text
  import opened Values

  /** A registry entry. The fields hold whatever the policy data or the
      imported metadata dict supplied, as the dataclass does not check types. */
  datatype PolicyMetadata = PolicyMetadata(
    name: Value,
    version: Value,
    description: Value,
    author: Value,
    createdAt: Value,
    updatedAt: Value,
    hash: Value,
    dependencies: Value,
    tags: Value)

  const MetadataFields: seq<string> :=
    ["name", "version", "description", "author", "created_at", "updated_at", "hash", "dependencies", "tags"]

  /** `asdict(metadata)`. */
  function MetadataDict(m: PolicyMetadata): Value
  {
    Dict([("name", m.name), ("version", m.version), ("description", m.description), ("author", m.author),
          ("created_at", m.createdAt), ("updated_at", m.updatedAt), ("hash", m.hash),
          ("dependencies", m.dependencies), ("tags", m.tags)])
  }

  /** The first key of `entries` that is not a field, if any. */
  function UnexpectedKey(entries: seq<(string, Value)>): (r: Option<string>)
    ensures r.None? <==> forall i :: 0 <= i < |entries| ==> entries[i].0 in MetadataFields
    ensures r.Some? ==> r.value !in MetadataFields
  {
    if entries == [] then None
    else if entries[0].0 !in MetadataFields then Some(entries[0].0)
    else UnexpectedKey(entries[1..])
  }

  /** The first field, in declaration order, that `entries` lacks, if any. */
  function MissingField(entries: seq<(string, Value)>, fields: seq<string>): (r: Option<string>)
    ensures r.None? <==> forall i :: 0 <= i < |fields| ==> HasKey(entries, fields[i])
    ensures r.Some? ==> r.value in fields && !HasKey(entries, r.value)
  {
    if fields == [] then None
    else if !HasKey(entries, fields[0]) then Some(fields[0])
    else MissingField(entries, fields[1..])
  }

  /** `PolicyMetadata(**d)`: a dict whose keys are exactly the fields. Python
      reports every missing argument at once; this names the first. */
  function MetadataFromDict(d: Value): Result<PolicyMetadata, string>
  {
    if !d.Dict? then Err("PolicyMetadata() argument after ** must be a mapping, not " + TypeName(d))
    else
      var e := d.entries;
      match UnexpectedKey(e)
      case Some(k) => Err("PolicyMetadata.__init__() got an unexpected keyword argument '" + k + "'")
      case None =>
        match MissingField(e, MetadataFields)
        case Some(f) => Err("PolicyMetadata.__init__() missing 1 required positional argument: '" + f + "'")
        case None =>
          Ok(PolicyMetadata(GetOr(e, "name", Null), GetOr(e, "version", Null), GetOr(e, "description", Null),
                            GetOr(e, "author", Null), GetOr(e, "created_at", Null), GetOr(e, "updated_at", Null),
                            GetOr(e, "hash", Null), GetOr(e, "dependencies", Null), GetOr(e, "tags", Null)))
  }

  /** Exported metadata imports back as the same record. */
  lemma MetadataRoundTrip(m: PolicyMetadata)
    ensures MetadataFromDict(MetadataDict(m)) == Ok(m)
  {
    var e := MetadataDict(m).entries;
    MetadataDictKeys(m);
    MetadataDictReads(m);
    assert MissingField(e, MetadataFields) == None;
  }

  lemma MetadataDictKeys(m: PolicyMetadata)
    ensures UnexpectedKey(MetadataDict(m).entries) == None
  {
    var e := MetadataDict(m).entries;
    forall i | 0 <= i < |e|
      ensures e[i].0 in MetadataFields
    {
      assert e[i].0 == MetadataFields[i];
    }
  }

  lemma MetadataDictReads(m: PolicyMetadata)
    ensures var e := MetadataDict(m).entries;
            && Get(e, "name") == Some(m.name) && Get(e, "version") == Some(m.version)
            && Get(e, "description") == Some(m.description) && Get(e, "author") == Some(m.author)
            && Get(e, "created_at") == Some(m.createdAt) && Get(e, "updated_at") == Some(m.updatedAt)
            && Get(e, "hash") == Some(m.hash) && Get(e, "dependencies") == Some(m.dependencies)
            && Get(e, "tags") == Some(m.tags)
  {
    var e := MetadataDict(m).entries;
    forall i, j | 0 <= j < i < |e|
      ensures e[j].0 != e[i].0
    {
      assert e[j].0 == MetadataFields[j] && e[i].0 == MetadataFields[i];
      assert MetadataFields[j][0] != MetadataFields[i][0] || |MetadataFields[j]| != |MetadataFields[i]|;
    }
    GetAt(e, 0);
    GetAt(e, 1);
    GetAt(e, 2);
    GetAt(e, 3);
    GetAt(e, 4);
    GetAt(e, 5);
    GetAt(e, 6);
    GetAt(e, 7);
    GetAt(e, 8);
  }

  /** A `validate_policy` (or registry operation) result. */
  datatype PolicyValidation = PolicyValidation(
    valid: bool,
    errors: seq<string>,
    warnings: seq<string>,
    metadata: Option<PolicyMetadata>)

  function Rejected(error: string): PolicyValidation
  {
    PolicyValidation(false, [error], [], None)
  }

  /** What `compile(code, '<string>', 'exec')` does with a string. */
  datatype Compilation = Compiles | SyntaxError | CompileRaised(message: string)

  const DangerousKeywords: seq<string> := ["import os", "import sys", "exec", "eval", "__import__"]

  predicate Dangerous(code: string)
  {
    exists i :: 0 <= i < |DangerousKeywords| && Contains(code, DangerousKeywords[i])
  }

  /** `_validate_custom_validator_code`: code must compile and hold none of
      the dangerous keywords. A syntax error rejects; any other exception,
      including the `TypeError` of code that is not a string, escapes. */
  function CodeVerdict(code: Value, compile: string -> Compilation): Result<bool, string>
  {
    if !code.Str? then Err("compile() arg 1 must be a string, bytes or AST object")
    else
      match compile(code.s)
      case SyntaxError => Ok(false)
      case CompileRaised(m) => Err(m)
      case Compiles => Ok(!Dangerous(code.s))
  }

  /** The keyword scan, with its early return. */
  method ValidateCustomValidatorCode(code: Value, compile: string -> Compilation) returns (r: Result<bool, string>)
    ensures r == CodeVerdict(code, compile)
  {
    if !code.Str? {
      return Err("compile() arg 1 must be a string, bytes or AST object");
    }
    var compiled := compile(code.s);
    if compiled.SyntaxError? {
      return Ok(false);
    }
    if compiled.CompileRaised? {
      return Err(compiled.message);
    }
    var i := 0;
    while i < |DangerousKeywords|
      invariant 0 <= i <= |DangerousKeywords|
      invariant forall j :: 0 <= j < i ==> !Contains(code.s, DangerousKeywords[j])
    {
      if Contains(code.s, DangerousKeywords[i]) {
        return Ok(false);
      }
      i := i + 1;
    }
    r := Ok(true);
  }

  /** Code holding a dangerous keyword is never accepted. */
  lemma DangerousCodeRejected(code: string, compile: string -> Compilation, i: nat)
    requires i < |DangerousKeywords| && Contains(code, DangerousKeywords[i])
    ensures CodeVerdict(Str(code), compile) != Ok(true)
  {
  }

  const RequiredFields: seq<string> := ["name", "description", "validators"]

  function MissingMessage(field: string): string
  {
    "Missing required field: " + field
  }

  /** One error per field of `fields` that `pd` lacks, in order. */
  function MissingOf(pd: seq<(string, Value)>, fields: seq<string>): seq<string>
  {
    if fields == [] then []
    else
      var f := fields[|fields| - 1];
      MissingOf(pd, fields[..|fields| - 1]) + (if HasKey(pd, f) then [] else [MissingMessage(f)])
  }

  function RequiredErrors(pd: seq<(string, Value)>): seq<string>
  {
    MissingOf(pd, RequiredFields)
  }

  lemma RequiredErrorsUnfold(pd: seq<(string, Value)>)
    ensures RequiredErrors(pd) ==
              (if HasKey(pd, "name") then [] else [MissingMessage("name")])
              + (if HasKey(pd, "description") then [] else [MissingMessage("description")])
              + (if HasKey(pd, "validators") then [] else [MissingMessage("validators")])
  {
    var f2: seq<string> := ["name", "description"];
    var f1: seq<string> := ["name"];
    assert RequiredFields[..2] == f2 && f2[..1] == f1 && f1[..0] == [];
    assert MissingOf(pd, f1) == [] + (if HasKey(pd, "name") then [] else [MissingMessage("name")]);
    assert MissingOf(pd, f2) == MissingOf(pd, f1) + (if HasKey(pd, "description") then [] else [MissingMessage("description")]);
  }

  /** The errors of validator `i`. */
  function ItemError(i: nat, item: Value): seq<string>
  {
    match item
    case Dict(e) =>
      (if HasKey(e, "name") then [] else ["Validator " + IntToString(i) + " missing 'name' field"])
      + (if HasKey(e, "config") && !Get(e, "config").value.Dict? then
           ["Validator " + IntToString(i) + " 'config' must be a dictionary"]
         else [])
    case Str(_) => []
    case _ => ["Validator " + IntToString(i) + " must be a string or dictionary"]
  }

  /** A validator item the check accepts. */
  predicate GoodItem(item: Value)
  {
    || item.Str?
    || (item.Dict? && HasKey(item.entries, "name")
        && (HasKey(item.entries, "config") ==> Get(item.entries, "config").value.Dict?))
  }

  function ItemErrors(items: seq<Value>): seq<string>
  {
    if items == [] then []
    else ItemErrors(items[..|items| - 1]) + ItemError(|items| - 1, items[|items| - 1])
  }

  function ValidatorsErrors(pd: seq<(string, Value)>): seq<string>
  {
    match Get<Value>(pd, "validators")
    case None => []
    case Some(List(items)) => ItemErrors(items)
    case Some(_) => ["'validators' must be a list"]
  }

  const ValidActions: seq<string> := ["exception", "filter", "warn", "log"]

  const InvalidAction: string := "Invalid " + "on_fail_action. Must be one of: ['exception', 'filter', 'warn', 'log']"

  function ActionErrors(pd: seq<(string, Value)>): seq<string>
  {
    match Get<Value>(pd, "on_fail_action")
    case None => []
    case Some(a) => if a.Str? && a.s in ValidActions then [] else [InvalidAction]
  }

  function DepErrors(deps: seq<Value>): seq<string>
  {
    if deps == [] then []
    else DepErrors(deps[..|deps| - 1]) + (if deps[|deps| - 1].Str? then [] else ["All dependencies must be strings"])
  }

  function DepWarnings<M>(deps: seq<Value>, registry: seq<(string, M)>): seq<string>
  {
    if deps == [] then []
    else
      var d := deps[|deps| - 1];
      DepWarnings(deps[..|deps| - 1], registry)
        + (if d.Str? && !HasKey(registry, d.s) then ["Dependency '" + d.s + "' not found in registry"] else [])
  }

  function DependencyErrors(pd: seq<(string, Value)>): seq<string>
  {
    match Get<Value>(pd, "dependencies")
    case None => []
    case Some(List(deps)) => DepErrors(deps)
    case Some(_) => ["'dependencies' must be a list"]
  }

  function DependencyWarnings<M>(pd: seq<(string, Value)>, registry: seq<(string, M)>): seq<string>
  {
    match Get<Value>(pd, "dependencies")
    case Some(List(deps)) => DepWarnings(deps, registry)
    case _ => []
  }

  function CustomErrors(entries: seq<(string, Value)>, compile: string -> Compilation): Result<seq<string>, string>
  {
    if entries == [] then Ok([])
    else
      var before :- CustomErrors(entries[..|entries| - 1], compile);
      var last := entries[|entries| - 1];
      var ok :- CodeVerdict(last.1, compile);
      Ok(before + (if ok then [] else ["Invalid custom validator code for '" + last.0 + "'"]))
  }

  /** Custom validators are checked only when given as a dict. */
  function CustomValidatorErrors(pd: seq<(string, Value)>, compile: string -> Compilation): Result<seq<string>, string>
  {
    match Get<Value>(pd, "custom_validators")
    case Some(Dict(e)) => CustomErrors(e, compile)
    case _ => Ok([])
  }

  const TooManyValidators: string := "Policy " + "has more than 10 validators, which may impact performance"

  /** The performance warning; `len` of a value without a length raises. */
  function PerformanceWarnings(pd: seq<(string, Value)>): Result<seq<string>, string>
  {
    match Get<Value>(pd, "validators")
    case None => Ok([])
    case Some(v) =>
      match Len(v)
      case None => Err("object of type '" + TypeName(v) + "' has no len()")
      case Some(n) => Ok(if n > 10 then [TooManyValidators] else [])
  }

  /** The reference meaning of `validate_policy` against a registry: the
      errors and warnings in the order the checks append them, or the single
      "Validation error" of a check that raised. */
  function PolicyCheck<M>(pd: seq<(string, Value)>, registry: seq<(string, M)>, compile: string -> Compilation)
    : PolicyValidation
  {
    var errors := RequiredErrors(pd) + ValidatorsErrors(pd) + ActionErrors(pd) + DependencyErrors(pd);
    var warnings := DependencyWarnings(pd, registry);
    match CustomValidatorErrors(pd, compile)
    case Err(m) => Rejected("Validation error: " + m)
    case Ok(custom) =>
      match PerformanceWarnings(pd)
      case Err(m) => Rejected("Validation error: " + m)
      case Ok(perf) => PolicyValidation(errors + custom == [], errors + custom, warnings + perf, None)
  }

  /** `validate_policy` on a list, which an imported policy can be: `in`
      tests list membership, and indexing the list with a key raises. */
  function ListPolicyCheck(items: seq<Value>): PolicyValidation
  {
    var errors := MissingIn(items, RequiredFields);
    if Str("validators") in items || Str("on_fail_action") in items
       || Str("dependencies") in items || Str("custom_validators") in items
    then Rejected("Validation error: list indices must be integers or slices, not str")
    else PolicyValidation(errors == [], errors, [], None)
  }

  /** One error per field of `fields` that is not among `items`. */
  function MissingIn(items: seq<Value>, fields: seq<string>): seq<string>
  {
    if fields == [] then []
    else
      var f := fields[|fields| - 1];
      MissingIn(items, fields[..|fields| - 1]) + (if Str(f) in items then [] else [MissingMessage(f)])
  }

  /** A list is never a valid policy. */
  lemma ListPolicyInvalid(items: seq<Value>)
    ensures !ListPolicyCheck(items).valid
  {
    var f2: seq<string> := ["name", "description"];
    var f1: seq<string> := ["name"];
    assert RequiredFields[..2] == f2 && f2[..1] == f1 && f1[..0] == [];
    assert RequiredFields[2] == "validators";
    var last := if Str("validators") in items then [] else [MissingMessage("validators")];
    assert MissingIn(items, RequiredFields) == MissingIn(items, f2) + last;
  }

  /** A policy is valid exactly when its error list is empty. */
  lemma PolicyCheckValid<M>(pd: seq<(string, Value)>, registry: seq<(string, M)>, compile: string -> Compilation)
    ensures PolicyCheck(pd, registry, compile).valid <==> PolicyCheck(pd, registry, compile).errors == []
    ensures PolicyCheck(pd, registry, compile).metadata == None
  {
  }

  /** The registry decides warnings only: whatever is registered, the errors
      and the verdict are the same. */
  lemma RegistryOnlyWarns<M>(pd: seq<(string, Value)>, r1: seq<(string, M)>, r2: seq<(string, M)>,
                             compile: string -> Compilation)
    ensures PolicyCheck(pd, r1, compile).valid == PolicyCheck(pd, r2, compile).valid
    ensures PolicyCheck(pd, r1, compile).errors == PolicyCheck(pd, r2, compile).errors
  {
  }

  /** Equal texts with the same surroundings have equal middles. */
  lemma WrappedEqual(prefix: string, a: string, b: string, suffix: string)
    requires prefix + a + suffix == prefix + b + suffix
    ensures a == b
  {
    var t1 := prefix + a + suffix;
    var t2 := prefix + b + suffix;
    assert |a| == |b|;
    forall i | 0 <= i < |a|
      ensures a[i] == b[i]
    {
      assert t1[|prefix| + i] == a[i];
      assert t2[|prefix| + i] == b[i];
    }
  }

  function NotFound(d: string): string
  {
    "Dependency '" + d + "' not found in registry"
  }

  /** The dependency warnings name exactly the string dependencies missing
      from the registry. */
  lemma {:induction false} DepWarningsMeaning<M>(deps: seq<Value>, registry: seq<(string, M)>, d: string)
    ensures NotFound(d) in DepWarnings(deps, registry) <==> Str(d) in deps && !HasKey(registry, d)
  {
    if deps != [] {
      var init := deps[..|deps| - 1];
      var last := deps[|deps| - 1];
      DepWarningsMeaning(init, registry, d);
      assert deps == init + [last];
      assert DepWarnings(deps, registry) == DepWarnings(init, registry)
        + (if last.Str? && !HasKey(registry, last.s) then [NotFound(last.s)] else []);
      if last.Str? && NotFound(d) == NotFound(last.s) {
        assert NotFound(d) == "Dependency '" + d + "' not found in registry";
        WrappedEqual("Dependency '", d, last.s, "' not found in registry");
      }
    }
  }

  /** Every error message of one validator item starts with 'V'. */
  lemma ItemErrorStart(i: nat, item: Value)
    ensures forall m :: m in ItemError(i, item) ==> |m| > 0 && m[0] == 'V'
  {
    var n := IntToString(i);
    assert ("Validator " + n + " missing 'name' field")[0] == 'V';
    assert ("Validator " + n + " 'config' must be a dictionary")[0] == 'V';
    assert ("Validator " + n + " must be a string or dictionary")[0] == 'V';
  }

  lemma {:induction false} ItemErrorsStart(items: seq<Value>)
    ensures forall m :: m in ItemErrors(items) ==> |m| > 0 && m[0] == 'V'
  {
    if items != [] {
      var init := items[..|items| - 1];
      ItemErrorsStart(init);
      ItemErrorStart(|items| - 1, items[|items| - 1]);
      assert ItemErrors(items) == ItemErrors(init) + ItemError(|items| - 1, items[|items| - 1]);
    }
  }

  lemma {:induction false} CustomErrorsStart(entries: seq<(string, Value)>, compile: string -> Compilation)
    ensures CustomErrors(entries, compile).Ok? ==>
              forall m :: m in CustomErrors(entries, compile).value ==> |m| > 0 && m[0] == 'I'
  {
    if entries != [] {
      var init := entries[..|entries| - 1];
      CustomErrorsStart(init, compile);
      assert ("Invalid custom validator code for '" + entries[|entries| - 1].0 + "'")[0] == 'I';
    }
  }

  /** No message in `ms` starts with `c`. */
  predicate NoneStartWith(ms: seq<string>, c: char)
  {
    forall m :: m in ms ==> |m| > 0 && m[0] != c
  }

  lemma NoneStartWithAppend(a: seq<string>, b: seq<string>, c: char)
    requires NoneStartWith(a, c) && NoneStartWith(b, c)
    ensures NoneStartWith(a + b, c)
  {
    forall m | m in a + b
      ensures |m| > 0 && m[0] != c
    {
      assert m in a || m in b;
    }
  }

  lemma ValidatorsErrorsStart(pd: seq<(string, Value)>)
    ensures NoneStartWith(ValidatorsErrors(pd), 'M')
  {
    var v := Get<Value>(pd, "validators");
    if v.Some? && v.value.List? {
      ItemErrorsStart(v.value.items);
    }
  }

  lemma DependencyErrorsStart(pd: seq<(string, Value)>)
    ensures NoneStartWith(DependencyErrors(pd), 'M')
  {
    var d := Get<Value>(pd, "dependencies");
    if d.Some? && d.value.List? {
      DepErrorsStart(d.value.items);
    }
  }

  /** Only the required-field errors start with 'M'. */
  lemma OtherErrorsStart(pd: seq<(string, Value)>, compile: string -> Compilation)
    ensures NoneStartWith(ValidatorsErrors(pd) + ActionErrors(pd) + DependencyErrors(pd), 'M')
    ensures CustomValidatorErrors(pd, compile).Ok? ==> NoneStartWith(CustomValidatorErrors(pd, compile).value, 'M')
  {
    ValidatorsErrorsStart(pd);
    DependencyErrorsStart(pd);
    ActionErrorsStart(pd);
    NoneStartWithAppend(ValidatorsErrors(pd), ActionErrors(pd), 'M');
    NoneStartWithAppend(ValidatorsErrors(pd) + ActionErrors(pd), DependencyErrors(pd), 'M');
    CustomValidatorErrorsStart(pd, compile);
  }

  lemma ActionErrorsStart(pd: seq<(string, Value)>)
    ensures NoneStartWith(ActionErrors(pd), 'M')
  {
    assert InvalidAction[0] == 'I';
  }

  lemma CustomValidatorErrorsStart(pd: seq<(string, Value)>, compile: string -> Compilation)
    ensures CustomValidatorErrors(pd, compile).Ok? ==> NoneStartWith(CustomValidatorErrors(pd, compile).value, 'M')
  {
    var c := Get<Value>(pd, "custom_validators");
    if c.Some? && c.value.Dict? {
      CustomErrorsStart(c.value.entries, compile);
    }
  }

  lemma {:induction false} DepErrorsStart(deps: seq<Value>)
    ensures forall m :: m in DepErrors(deps) ==> m == "All dependencies must be strings"
  {
    if deps != [] {
      DepErrorsStart(deps[..|deps| - 1]);
    }
  }

  /** Each missing required field adds exactly one error naming it, unless
      a check raised. */
  lemma MissingFieldErrors<M>(pd: seq<(string, Value)>, registry: seq<(string, M)>, compile: string -> Compilation,
                              field: string)
    requires field in RequiredFields
    requires CustomValidatorErrors(pd, compile).Ok? && PerformanceWarnings(pd).Ok?
    ensures multiset(PolicyCheck(pd, registry, compile).errors)[MissingMessage(field)]
            == if HasKey(pd, field) then 0 else 1
  {
    OtherErrorsStart(pd, compile);
    var rest := ValidatorsErrors(pd) + ActionErrors(pd) + DependencyErrors(pd) + CustomValidatorErrors(pd, compile).value;
    NoneStartWithAppend(ValidatorsErrors(pd) + ActionErrors(pd) + DependencyErrors(pd),
                        CustomValidatorErrors(pd, compile).value, 'M');
    PolicyCheckErrors(pd, registry, compile);
    CountIgnoresRest(RequiredErrors(pd), rest, field);
    RequiredCount(pd, field);
  }

  lemma CountIgnoresRest(required: seq<string>, rest: seq<string>, field: string)
    requires NoneStartWith(rest, 'M')
    ensures multiset(required + rest)[MissingMessage(field)] == multiset(required)[MissingMessage(field)]
  {
    assert MissingMessage(field)[0] == 'M';
    assert MissingMessage(field) !in rest;
    assert multiset(required + rest) == multiset(required) + multiset(rest);
  }

  /** When no check raised, the errors are the checks' errors in order. */
  lemma PolicyCheckErrors<M>(pd: seq<(string, Value)>, registry: seq<(string, M)>, compile: string -> Compilation)
    requires CustomValidatorErrors(pd, compile).Ok? && PerformanceWarnings(pd).Ok?
    ensures PolicyCheck(pd, registry, compile).errors
            == RequiredErrors(pd) + ValidatorsErrors(pd) + ActionErrors(pd) + DependencyErrors(pd)
               + CustomValidatorErrors(pd, compile).value
  {
  }

  /** A check that raised turns the whole result into one "Validation error". */
  lemma PolicyCheckRaised<M>(pd: seq<(string, Value)>, registry: seq<(string, M)>, compile: string -> Compilation)
    ensures CustomValidatorErrors(pd, compile).Err? ==>
              PolicyCheck(pd, registry, compile) == Rejected("Validation error: " + CustomValidatorErrors(pd, compile).error)
    ensures CustomValidatorErrors(pd, compile).Ok? && PerformanceWarnings(pd).Err? ==>
              PolicyCheck(pd, registry, compile) == Rejected("Validation error: " + PerformanceWarnings(pd).error)
  {
  }

  lemma RequiredCount(pd: seq<(string, Value)>, field: string)
    requires field in RequiredFields
    ensures multiset(RequiredErrors(pd))[MissingMessage(field)] == if HasKey(pd, field) then 0 else 1
  {
    RequiredErrorsUnfold(pd);
    assert |MissingMessage("name")| != |MissingMessage("description")|;
    assert |MissingMessage("name")| != |MissingMessage("validators")|;
    assert |MissingMessage("description")| != |MissingMessage("validators")|;
  }

  lemma {:induction false} DepWarningsStart<M>(deps: seq<Value>, registry: seq<(string, M)>)
    ensures NoneStartWith(DepWarnings(deps, registry), 'P')
  {
    if deps != [] {
      var init := deps[..|deps| - 1];
      var d := deps[|deps| - 1];
      DepWarningsStart(init, registry);
      if d.Str? {
        assert NotFound(d.s)[0] == 'D';
      }
      NoneStartWithAppend(DepWarnings(init, registry),
                          if d.Str? && !HasKey(registry, d.s) then [NotFound(d.s)] else [], 'P');
    }
  }

  /** A list of more than ten validators draws the performance warning,
      and only then. */
  lemma ManyValidatorsWarn<M>(pd: seq<(string, Value)>, registry: seq<(string, M)>, compile: string -> Compilation)
    requires Get<Value>(pd, "validators").Some? && Get<Value>(pd, "validators").value.List?
    requires CustomValidatorErrors(pd, compile).Ok?
    ensures TooManyValidators in PolicyCheck(pd, registry, compile).warnings
            <==> |Get<Value>(pd, "validators").value.items| > 10
  {
    assert PerformanceWarnings(pd).Ok?;
    PolicyCheckWarnings(pd, registry, compile);
    TooManyAmongWarnings(pd, registry);
  }

  lemma TooManyAmongWarnings<M>(pd: seq<(string, Value)>, registry: seq<(string, M)>)
    requires Get<Value>(pd, "validators").Some? && Get<Value>(pd, "validators").value.List?
    ensures PerformanceWarnings(pd).Ok?
    ensures TooManyValidators in DependencyWarnings(pd, registry) + PerformanceWarnings(pd).value
            <==> |Get<Value>(pd, "validators").value.items| > 10
  {
    DependencyWarningsStart(pd, registry);
    var n := |Get<Value>(pd, "validators").value.items|;
    assert PerformanceWarnings(pd) == Ok(if n > 10 then [TooManyValidators] else []);
    TooManyAfter(DependencyWarnings(pd, registry), n);
  }

  lemma DependencyWarningsStart<M>(pd: seq<(string, Value)>, registry: seq<(string, M)>)
    ensures NoneStartWith(DependencyWarnings(pd, registry), 'P')
  {
    var d := Get<Value>(pd, "dependencies");
    if d.Some? && d.value.List? {
      DepWarningsStart(d.value.items, registry);
    }
  }

  lemma TooManyAfter(dw: seq<string>, n: nat)
    requires NoneStartWith(dw, 'P')
    ensures TooManyValidators in dw + (if n > 10 then [TooManyValidators] else []) <==> n > 10
  {
    assert TooManyValidators[0] == 'P';
  }

  /** When no check raised, the warnings are the dependency warnings and
      then the performance one. */
  lemma PolicyCheckWarnings<M>(pd: seq<(string, Value)>, registry: seq<(string, M)>, compile: string -> Compilation)
    requires CustomValidatorErrors(pd, compile).Ok? && PerformanceWarnings(pd).Ok?
    ensures PolicyCheck(pd, registry, compile).warnings
            == DependencyWarnings(pd, registry) + PerformanceWarnings(pd).value
  {
  }

  /** The validators part of the shape `validate_policy` accepts. */
  predicate ValidatorsWellFormed(v: Value)
  {
    v.List? && forall i :: 0 <= i < |v.items| ==> GoodItem(v.items[i])
  }

  predicate ActionWellFormed(pd: seq<(string, Value)>)
  {
    match Get<Value>(pd, "on_fail_action")
    case None => true
    case Some(a) => a.Str? && a.s in ValidActions
  }

  predicate DependenciesWellFormed(pd: seq<(string, Value)>)
  {
    match Get<Value>(pd, "dependencies")
    case None => true
    case Some(d) => d.List? && forall i :: 0 <= i < |d.items| ==> d.items[i].Str?
  }

  predicate CustomWellFormed(pd: seq<(string, Value)>, compile: string -> Compilation)
  {
    match Get<Value>(pd, "custom_validators")
    case Some(Dict(e)) => forall i :: 0 <= i < |e| ==> CodeVerdict(e[i].1, compile) == Ok(true)
    case _ => true
  }

  /** The shape `validate_policy` accepts, stated on its own: the three
      required fields; validators a list of names or of dicts with a name and
      a dict config; a known action; string dependencies; custom validator
      code that compiles and holds no dangerous keyword. */
  predicate WellFormedPolicy(pd: seq<(string, Value)>, compile: string -> Compilation)
  {
    && HasKey(pd, "name") && HasKey(pd, "description")
    && Get<Value>(pd, "validators").Some? && ValidatorsWellFormed(Get<Value>(pd, "validators").value)
    && ActionWellFormed(pd) && DependenciesWellFormed(pd) && CustomWellFormed(pd, compile)
  }

  lemma {:induction false} ItemErrorsEmpty(items: seq<Value>)
    ensures ItemErrors(items) == [] <==> forall i :: 0 <= i < |items| ==> GoodItem(items[i])
  {
    if items != [] {
      var init := items[..|items| - 1];
      ItemErrorsEmpty(init);
      assert forall i :: 0 <= i < |init| ==> init[i] == items[i];
    }
  }

  lemma {:induction false} DepErrorsEmpty(deps: seq<Value>)
    ensures DepErrors(deps) == [] <==> forall i :: 0 <= i < |deps| ==> deps[i].Str?
  {
    if deps != [] {
      var init := deps[..|deps| - 1];
      DepErrorsEmpty(init);
      assert forall i :: 0 <= i < |init| ==> init[i] == deps[i];
    }
  }

  lemma {:induction false} CustomErrorsEmpty(entries: seq<(string, Value)>, compile: string -> Compilation)
    ensures CustomErrors(entries, compile) == Ok([]) <==>
              forall i :: 0 <= i < |entries| ==> CodeVerdict(entries[i].1, compile) == Ok(true)
  {
    if entries != [] {
      var init := entries[..|entries| - 1];
      CustomErrorsEmpty(init, compile);
      assert forall i :: 0 <= i < |init| ==> init[i] == entries[i];
      var last := entries[|entries| - 1];
      var c := CustomErrors(init, compile);
      var v := CodeVerdict(last.1, compile);
      var msg := "Invalid custom validator code for '" + last.0 + "'";
      if c.Err? {
        assert CustomErrors(entries, compile).Err?;
      } else if v.Err? {
        assert CustomErrors(entries, compile).Err?;
      } else if v.value {
        assert CustomErrors(entries, compile) == Ok(c.value + []);
        assert c.value + [] == c.value;
      } else {
        assert CustomErrors(entries, compile) == Ok(c.value + [msg]);
      }
    }
  }

  lemma ValidatorsPart(pd: seq<(string, Value)>)
    ensures RequiredErrors(pd) + ValidatorsErrors(pd) == [] <==>
              HasKey(pd, "name") && HasKey(pd, "description")
              && Get<Value>(pd, "validators").Some? && ValidatorsWellFormed(Get<Value>(pd, "validators").value)
  {
    RequiredErrorsUnfold(pd);
    match Get<Value>(pd, "validators")
    case Some(List(items)) => ItemErrorsEmpty(items);
    case _ =>
  }

  lemma DependenciesPart(pd: seq<(string, Value)>)
    ensures DependencyErrors(pd) == [] <==> DependenciesWellFormed(pd)
  {
    match Get<Value>(pd, "dependencies")
    case Some(List(deps)) => DepErrorsEmpty(deps);
    case _ =>
  }

  lemma CustomPart(pd: seq<(string, Value)>, compile: string -> Compilation)
    ensures CustomValidatorErrors(pd, compile) == Ok([]) <==> CustomWellFormed(pd, compile)
  {
    match Get<Value>(pd, "custom_validators")
    case Some(Dict(e)) => CustomErrorsEmpty(e, compile);
    case _ =>
  }

  /** `validate_policy` accepts exactly the well-formed policies. */
  lemma PolicyCheckMeaning<M>(pd: seq<(string, Value)>, registry: seq<(string, M)>, compile: string -> Compilation)
    ensures PolicyCheck(pd, registry, compile).valid <==> WellFormedPolicy(pd, compile)
  {
    ValidatorsPart(pd);
    DependenciesPart(pd);
    CustomPart(pd, compile);
    var required := RequiredErrors(pd) + ValidatorsErrors(pd);
    var errors := required + ActionErrors(pd) + DependencyErrors(pd);
    assert ActionErrors(pd) == [] <==> ActionWellFormed(pd);
    if WellFormedPolicy(pd, compile) {
      assert PerformanceWarnings(pd).Ok?;
      assert errors == [];
    }
  }

  /** `f"{major}.{minor}.{patch}"`. */
  function VersionString(major: int, minor: int, patch: int): string
  {
    IntToString(major) + "." + IntToString(minor) + "." + IntToString(patch)
  }

  /** `_increment_version`: split on '.', convert the three parts with
      `int()`, bump by kind; a version that does not give exactly three
      integers gets ".1" appended. */
  function IncrementVersion(current: string, kind: string): string
  {
    var parts := Split(current, '.');
    if |parts| == 3 && ParseInt(parts[0]).Some? && ParseInt(parts[1]).Some? && ParseInt(parts[2]).Some? then
      var major := ParseInt(parts[0]).value;
      var minor := ParseInt(parts[1]).value;
      var patch := ParseInt(parts[2]).value;
      if kind == "major" then VersionString(major + 1, 0, 0)
      else if kind == "minor" then VersionString(major, minor + 1, 0)
      else VersionString(major, minor, patch + 1)
    else current + ".1"
  }

  lemma NoDot(n: nat)
    ensures forall i :: 0 <= i < |IntToString(n)| ==> IntToString(n)[i] != '.'
  {
    assert IntToString(n) == NatToString(n);
  }

  /** A version string splits back into its three numbers. */
  lemma SplitVersion(major: nat, minor: nat, patch: nat)
    ensures Split(VersionString(major, minor, patch), '.') == [IntToString(major), IntToString(minor), IntToString(patch)]
  {
    NoDot(major);
    NoDot(minor);
    NoDot(patch);
    var a, b, c := IntToString(major), IntToString(minor), IntToString(patch);
    SplitNone(c, '.');
    SplitPrefix(b, '.', c);
    assert b + "." + c == b + ['.'] + c;
    SplitPrefix(a, '.', b + "." + c);
    assert VersionString(major, minor, patch) == a + ['.'] + (b + "." + c);
  }

  /** On a well-formed version the increment follows items 6 to 8 of
      Semantic Versioning 2.0.0: a major bump resets minor and patch, a minor
      bump resets patch, anything else bumps patch. */
  lemma IncrementVersionSemVer(major: nat, minor: nat, patch: nat, kind: string)
    ensures IncrementVersion(VersionString(major, minor, patch), kind) ==
            if kind == "major" then VersionString(major + 1, 0, 0)
            else if kind == "minor" then VersionString(major, minor + 1, 0)
            else VersionString(major, minor, patch + 1)
  {
    SplitVersion(major, minor, patch);
    ParseIntOfIntToString(major);
    ParseIntOfIntToString(minor);
    ParseIntOfIntToString(patch);
  }

  /** A version that does not split into three integers, whether for the
      number of parts or for a part `int()` rejects, gets ".1". */
  lemma IncrementVersionFallback(current: string, kind: string)
    requires !(|Split(current, '.')| == 3 && forall k :: 0 <= k < 3 ==> ParseInt(Split(current, '.')[k]).Some?)
    ensures IncrementVersion(current, kind) == current + ".1"
  {
    var parts := Split(current, '.');
    if |parts| == 3 {
      var k :| 0 <= k < 3 && ParseInt(parts[k]).None?;
      assert k == 0 || k == 1 || k == 2;
    }
  }

  /** For instance "1.2" becomes "1.2.1". */
  lemma IncrementTwoPartVersion()
    ensures IncrementVersion("1.2", "patch") == "1.2.1"
  {
    assert Split("1.2", '.') == ["1", "2"] by {
      SplitNone("2", '.');
      SplitPrefix("1", '.', "2");
      assert "1.2" == "1" + ['.'] + "2";
    }
  }
}
