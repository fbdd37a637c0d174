/** The federated client: it receives policy updates from the federation
    server, checks and merges them into the local guardrail configuration
    table, advances its policy version, and keeps validation metrics that it
    reports back. The server's payloads are taken already deserialised, as
    `Value`s. */
module FederatedClient {
  import opened Wrappers
  import opened Text
  import opened Values

  /** One entry of `validation_types`. */
  datatype TypeCount = TypeCount(total: int, failed: int)

  /** `validation_types`: counters keyed by the validator name, which may be
      any hashable value. */
  type TypeTable = seq<(Value, TypeCount)>

  /** A copy of `validation_metrics`. */
  datatype ValidationMetrics = ValidationMetrics(total: int, failed: int, types: TypeTable, policyVersion: Value)

  function TypeGet(types: TypeTable, name: Value): Option<TypeCount>
  {
    if types == [] then None
    else if types[0].0 == name then Some(types[0].1)
    else TypeGet(types[1..], name)
  }

  /** Counts one more validation of `name`, a failed one when `fail`; a new
      name starts from zero and is appended. */
  function TypeBump(types: TypeTable, name: Value, fail: bool): TypeTable
  {
    if types == [] then [(name, TypeCount(1, if fail then 1 else 0))]
    else if types[0].0 == name then
      [(name, TypeCount(types[0].1.total + 1, types[0].1.failed + if fail then 1 else 0))] + types[1..]
    else [types[0]] + TypeBump(types[1..], name, fail)
  }

  /** The total counted for `name`, zero when it has no entry yet. */
  function TypeTotal(types: TypeTable, name: Value): int
  {
    match TypeGet(types, name)
    case None => 0
    case Some(c) => c.total
  }

  /** The failures counted for `name`, zero when it has no entry yet. */
  function TypeFailed(types: TypeTable, name: Value): int
  {
    match TypeGet(types, name)
    case None => 0
    case Some(c) => c.failed
  }

  /** Bumping `name` adds one to its total, and one to its failures exactly
      when the validation failed; every other name reads as before. */
  lemma {:induction false} TypeBumpMeaning(types: TypeTable, name: Value, fail: bool, other: Value)
    ensures TypeTotal(TypeBump(types, name, fail), name) == TypeTotal(types, name) + 1
    ensures TypeFailed(TypeBump(types, name, fail), name) == TypeFailed(types, name) + if fail then 1 else 0
    ensures other != name ==> TypeGet(TypeBump(types, name, fail), other) == TypeGet(types, other)
  {
    if types != [] && types[0].0 != name {
      TypeBumpMeaning(types[1..], name, fail, other);
    }
  }

  /** Every counter has `0 <= failed <= total`. */
  predicate TypesCounted(types: TypeTable)
  {
    forall i :: 0 <= i < |types| ==> 0 <= types[i].1.failed <= types[i].1.total
  }

  /** The metrics invariant: failures never exceed validations, overall and
      per validator. */
  predicate Counted(m: ValidationMetrics)
  {
    0 <= m.failed <= m.total && TypesCounted(m.types)
  }

  lemma {:induction false} TypeBumpCounted(types: TypeTable, name: Value, fail: bool)
    requires TypesCounted(types)
    ensures TypesCounted(TypeBump(types, name, fail))
  {
    if types != [] && types[0].0 != name {
      TypeBumpCounted(types[1..], name, fail);
      assert TypeBump(types, name, fail) == [types[0]] + TypeBump(types[1..], name, fail);
    }
  }

  /** `validation.get("validator_name", "unknown")`. */
  function NameOf(entries: seq<(string, Value)>): Value
  {
    GetOr(entries, "validator_name", Str("unknown"))
  }

  /** `validation.get("status", "unknown") == "fail"`. */
  predicate IsFail(entries: seq<(string, Value)>)
  {
    GetOr(entries, "status", Str("unknown")) == Str("fail")
  }

  /** A validation entry the loop can count: a dict whose name can be a
      dictionary key. Anything else raises and ends the loop. */
  predicate Trackable(v: Value)
  {
    v.Dict? && Hashable(NameOf(v.entries))
  }

  /** The counters after the loop over `items`, and whether it ran to the
      end; a raising entry stops it with the earlier entries counted. */
  function CountAll(types: TypeTable, items: seq<Value>): (TypeTable, bool)
  {
    if items == [] then (types, true)
    else
      var (t, completed) := CountAll(types, items[..|items| - 1]);
      var v := items[|items| - 1];
      if !completed || !Trackable(v) then (t, false)
      else (TypeBump(t, NameOf(v.entries), IsFail(v.entries)), true)
  }

  /** How many entries of `items` are counted under `name`. */
  function Occurrences(items: seq<Value>, name: Value): nat
  {
    if items == [] then 0
    else
      var v := items[|items| - 1];
      Occurrences(items[..|items| - 1], name) + if v.Dict? && NameOf(v.entries) == name then 1 else 0
  }

  /** How many of them failed. */
  function Failures(items: seq<Value>, name: Value): nat
  {
    if items == [] then 0
    else
      var v := items[|items| - 1];
      Failures(items[..|items| - 1], name) + if v.Dict? && NameOf(v.entries) == name && IsFail(v.entries) then 1 else 0
  }

  /** The loop runs to the end exactly when every entry can be counted. */
  lemma {:induction false} CountAllCompletes(types: TypeTable, items: seq<Value>)
    ensures CountAll(types, items).1 <==> forall i :: 0 <= i < |items| ==> Trackable(items[i])
  {
    if items != [] {
      var init := items[..|items| - 1];
      CountAllCompletes(types, init);
      assert forall i :: 0 <= i < |init| ==> init[i] == items[i];
    }
  }

  /** When it does, every validator name gains one validation per entry
      naming it, and one failure per such entry whose status is "fail". */
  lemma {:induction false} CountAllTotals(types: TypeTable, items: seq<Value>, name: Value)
    requires forall i :: 0 <= i < |items| ==> Trackable(items[i])
    ensures TypeTotal(CountAll(types, items).0, name) == TypeTotal(types, name) + Occurrences(items, name)
    ensures TypeFailed(CountAll(types, items).0, name) == TypeFailed(types, name) + Failures(items, name)
  {
    if items != [] {
      var init := items[..|items| - 1];
      var v := items[|items| - 1];
      assert forall i :: 0 <= i < |init| ==> init[i] == items[i];
      CountAllTotals(types, init, name);
      CountAllCompletes(types, init);
      var t := CountAll(types, init).0;
      TypeBumpMeaning(t, NameOf(v.entries), IsFail(v.entries), name);
    }
  }

  /** Counting keeps every counter's failures within its total. */
  lemma {:induction false} CountAllCounted(types: TypeTable, items: seq<Value>)
    requires TypesCounted(types)
    ensures TypesCounted(CountAll(types, items).0)
  {
    if items != [] {
      CountAllCounted(types, items[..|items| - 1]);
      var (t, completed) := CountAll(types, items[..|items| - 1]);
      var v := items[|items| - 1];
      if completed && Trackable(v) {
        TypeBumpCounted(t, NameOf(v.entries), IsFail(v.entries));
      }
    }
  }

  /** Once an entry has raised, later entries change nothing. */
  lemma {:induction false} CountAllStops(types: TypeTable, items: seq<Value>, i: nat)
    requires i <= |items|
    requires !CountAll(types, items[..i]).1
    ensures CountAll(types, items) == CountAll(types, items[..i])
  {
    if i < |items| {
      assert items[..|items| - 1][..i] == items[..i];
      CountAllStops(types, items[..|items| - 1], i);
    } else {
      assert items[..i] == items;
    }
  }

  /** `update_validation_metrics`: one more validation, one more failure
      when `valid` is falsy (a missing `valid` counts as valid), then the
      per-validator counters; the metrics take the client's policy version
      only when the loop finished, since an exception inside it is caught
      with the earlier updates kept. */
  function MetricsAfter(m: ValidationMetrics, result: seq<(string, Value)>, version: Value): ValidationMetrics
  {
    var failed := m.failed + if Truthy(GetOr(result, "valid", Bool(true))) then 0 else 1;
    var (items, iterable) := Elements(GetOr(result, "validations", List([])));
    var (types, completed) := if iterable then CountAll(m.types, items) else (m.types, false);
    ValidationMetrics(m.total + 1, failed, types, if completed then version else m.policyVersion)
  }

  /** Each update counts exactly one validation, counts a failure exactly
      when the result is not valid, and keeps the metrics invariant. */
  lemma MetricsAfterCounts(m: ValidationMetrics, result: seq<(string, Value)>, version: Value)
    requires Counted(m)
    ensures MetricsAfter(m, result, version).total == m.total + 1
    ensures MetricsAfter(m, result, version).failed == m.failed + 1 <==> !Truthy(GetOr(result, "valid", Bool(true)))
    ensures MetricsAfter(m, result, version).failed == m.failed <==> Truthy(GetOr(result, "valid", Bool(true)))
    ensures Counted(MetricsAfter(m, result, version))
  {
    var (items, iterable) := Elements(GetOr(result, "validations", List([])));
    CountAllCounted(m.types, items);
  }

  /** With a list of countable validation entries, the per-validator totals
      and failures grow by their occurrences and the policy version is
      recorded; with a non-list, or any entry that raises, the version is
      not recorded. */
  lemma MetricsAfterTypes(m: ValidationMetrics, result: seq<(string, Value)>, version: Value, name: Value)
    ensures var items := GetOr(result, "validations", List([]));
            items.List? && (forall i :: 0 <= i < |items.items| ==> Trackable(items.items[i])) ==>
              && TypeTotal(MetricsAfter(m, result, version).types, name) == TypeTotal(m.types, name) + Occurrences(items.items, name)
              && TypeFailed(MetricsAfter(m, result, version).types, name) == TypeFailed(m.types, name) + Failures(items.items, name)
              && MetricsAfter(m, result, version).policyVersion == version
    ensures var items := GetOr(result, "validations", List([]));
            items.List? && (exists i :: 0 <= i < |items.items| && !Trackable(items.items[i])) ==>
              MetricsAfter(m, result, version).policyVersion == m.policyVersion
  {
    var items := GetOr(result, "validations", List([]));
    if items.List? {
      CountAllCompletes(m.types, items.items);
      if forall i :: 0 <= i < |items.items| ==> Trackable(items.items[i]) {
        CountAllTotals(m.types, items.items, name);
      }
    }
  }

  /** The loop over the validation entries. */
  method TrackTypes(types: TypeTable, items: seq<Value>) returns (updated: TypeTable, completed: bool)
    ensures (updated, completed) == CountAll(types, items)
  {
    updated := types;
    var i := 0;
    while i < |items|
      invariant 0 <= i <= |items|
      invariant CountAll(types, items[..i]) == (updated, true)
    {
      var prefix := items[..i + 1];
      assert prefix[..i] == items[..i] && prefix[i] == items[i];
      var v := items[i];
      if !v.Dict? || !Hashable(NameOf(v.entries)) {
        CountAllStops(types, items, i + 1);
        return updated, false;
      }
      updated := TypeBump(updated, NameOf(v.entries), IsFail(v.entries));
      i := i + 1;
    }
    assert items[..i] == items;
    completed := true;
  }

  /** `_validate_policies`: the update must be a dict in which every policy
      is a dict with a list under "validators". */
  predicate PoliciesValid(policies: Value)
  {
    && policies.Dict?
    && forall i :: 0 <= i < |policies.entries| ==> PolicyShaped(policies.entries[i].1)
  }

  predicate PolicyShaped(config: Value)
  {
    config.Dict? && HasKey(config.entries, "validators") && Get<Value>(config.entries, "validators").value.List?
  }

  /** `_validate_policies`, stopping at the first bad policy; a non-dict
      raises on `.items()`, which is caught as `False`. */
  method ValidatePolicies(policies: Value) returns (ok: bool)
    ensures ok == PoliciesValid(policies)
  {
    if !policies.Dict? {
      return false;
    }
    var entries := policies.entries;
    var i := 0;
    while i < |entries|
      invariant 0 <= i <= |entries|
      invariant forall j :: 0 <= j < i ==> PolicyShaped(entries[j].1)
    {
      var config := entries[i].1;
      if !config.Dict? {
        return false;
      }
      var validators := Get<Value>(config.entries, "validators");
      if validators.None? {
        return false;
      }
      if !validators.value.List? {
        return false;
      }
      i := i + 1;
    }
    ok := true;
  }

  /** `self.policy_version + 1`, or the `TypeError` it raises. */
  function PlusOne(v: Value): Result<Value, string>
  {
    match v
    case Int(i) => Ok(Int(i + 1))
    case Bool(b) => Ok(Int(if b then 2 else 1))
    case Real(r) => Ok(Real(r + 1.0))
    case Str(_) => Err("can only concatenate str (not \"int\") to str")
    case List(_) => Err("can only concatenate list (not \"int\") to list")
    case _ => Err("unsupported operand type(s) for +: '" + TypeName(v) + "' and 'int'")
  }

  /** The metrics part of what `fit` returns. */
  datatype FitMetrics = NoMetrics | ErrorMetric(error: Value) | Snapshot(metrics: ValidationMetrics)

  /** What `fit` returns and leaves behind. */
  datatype FitOutcome = FitOutcome(examples: nat, metrics: FitMetrics, version: Value, configs: seq<(string, Value)>)

  /** `fit` on an unpickled payload that is not a dict: `"error" in
      policy_data` and `policy_data.get` raise the Python errors below. */
  function NonDictPayloadError(payload: Value): string
    requires !payload.Dict?
  {
    match payload
    case Str(s) =>
      if Contains(s, "error") then "string indices must be integers, not 'str'"
      else "'str' object has no attribute 'get'"
    case List(items) =>
      if Str("error") in items then "list indices must be integers or slices, not str"
      else "'list' object has no attribute 'get'"
    case _ => "argument of type '" + TypeName(payload) + "' is not iterable"
  }

  /** `fit`: no parameters and error payloads leave everything as it was; a
      payload's policies are applied (`hookRaises` is the active plugin's
      `update_configurations` raising, which rolls them back), and only then
      does the version become the payload's "version", by default one more
      than the current one. */
  function FitSpec(version: Value, configs: seq<(string, Value)>, metrics: ValidationMetrics,
                   parameters: seq<Value>, hookRaises: bool): FitOutcome
  {
    if parameters == [] then FitOutcome(0, NoMetrics, version, configs)
    else
      var payload := parameters[0];
      if !payload.Dict? then FitOutcome(0, ErrorMetric(Str(NonDictPayloadError(payload))), version, configs)
      else if HasKey(payload.entries, "error") then
        FitOutcome(0, ErrorMetric(Get<Value>(payload.entries, "error").value), version, configs)
      else
        var policies := GetOr(payload.entries, "policies", Dict([]));
        match PlusOne(version)
        case Err(e) => FitOutcome(0, ErrorMetric(Str(e)), version, configs)
        case Ok(next) =>
          if PoliciesValid(policies) && !hookRaises then
            FitOutcome(1, Snapshot(metrics), GetOr(payload.entries, "version", next), Update(configs, policies.entries))
          else FitOutcome(0, ErrorMetric(Str("Failed to apply policies")), version, configs)
  }

  /** A round that yields no examples changes neither the version nor the
      configuration table; one that yields an example is exactly one whose
      dict payload carries no error and valid policies, and it installs the
      payload's version (by default the next one) and merges its policies. */
  lemma FitMeaning(version: Value, configs: seq<(string, Value)>, metrics: ValidationMetrics,
                   parameters: seq<Value>, hookRaises: bool)
    ensures var r := FitSpec(version, configs, metrics, parameters, hookRaises);
            r.examples <= 1 && (r.examples == 0 ==> r.version == version && r.configs == configs)
    ensures var r := FitSpec(version, configs, metrics, parameters, hookRaises);
            r.examples == 1 <==>
              && parameters != []
              && parameters[0].Dict?
              && !HasKey(parameters[0].entries, "error")
              && PlusOne(version).Ok?
              && PoliciesValid(GetOr(parameters[0].entries, "policies", Dict([])))
              && !hookRaises
    ensures var r := FitSpec(version, configs, metrics, parameters, hookRaises);
            r.examples == 1 ==>
              && r.version == GetOr(parameters[0].entries, "version", PlusOne(version).value)
              && r.configs == Update(configs, GetOr(parameters[0].entries, "policies", Dict([])).entries)
              && r.metrics == Snapshot(metrics)
  {
  }

  /** The federated client. `configs` is the guardrail configuration table
      it updates; the counters are its `validation_metrics`. */
  class Client {
    const clientId: string
    var policyVersion: Value
    var configs: seq<(string, Value)>
    var total: int
    var failed: int
    var types: TypeTable
    var metricsVersion: Value

    function Metrics(): ValidationMetrics
      reads this
    {
      ValidationMetrics(total, failed, types, metricsVersion)
    }

    ghost predicate Valid()
      reads this
    {
      Counted(Metrics())
    }

    constructor(clientId: string, configs: seq<(string, Value)>)
      ensures Valid()
      ensures this.clientId == clientId && this.configs == configs && policyVersion == Int(0)
      ensures Metrics() == ValidationMetrics(0, 0, [], Int(0))
    {
      this.clientId := clientId;
      this.configs := configs;
      policyVersion := Int(0);
      total := 0;
      failed := 0;
      types := [];
      metricsVersion := Int(0);
    }

    /** `update_validation_metrics`. */
    method UpdateValidationMetrics(result: seq<(string, Value)>)
      requires Valid()
      modifies this
      ensures Valid()
      ensures Metrics() == MetricsAfter(old(Metrics()), result, policyVersion)
      ensures policyVersion == old(policyVersion) && configs == old(configs)
    {
      MetricsAfterCounts(Metrics(), result, policyVersion);
      total := total + 1;
      if !Truthy(GetOr(result, "valid", Bool(true))) {
        failed := failed + 1;
      }
      var (items, iterable) := Elements(GetOr(result, "validations", List([])));
      if !iterable {
        return;
      }
      var completed;
      types, completed := TrackTypes(types, items);
      if completed {
        metricsVersion := policyVersion;
      }
    }

    /** `_apply_new_policies`: invalid policies are refused with the table
        untouched; valid ones are merged over it, new entries overriding old,
        and rolled back when the plugin hook raises. */
    method ApplyNewPolicies(newPolicies: Value, hookRaises: bool) returns (ok: bool)
      modifies this
      ensures ok <==> PoliciesValid(newPolicies) && !hookRaises
      ensures configs == if ok then Update(old(configs), newPolicies.entries) else old(configs)
      ensures policyVersion == old(policyVersion) && Metrics() == old(Metrics())
    {
      var valid := ValidatePolicies(newPolicies);
      if !valid {
        return false;
      }
      var backup := configs;
      configs := Update(configs, newPolicies.entries);
      if hookRaises {
        configs := backup;
        return false;
      }
      ok := true;
    }

    /** `fit`. */
    method Fit(parameters: seq<Value>, hookRaises: bool) returns (examples: nat, metrics: FitMetrics)
      modifies this
      ensures FitOutcome(examples, metrics, policyVersion, configs)
              == FitSpec(old(policyVersion), old(configs), old(Metrics()), parameters, hookRaises)
      ensures Metrics() == old(Metrics())
    {
      if parameters == [] {
        return 0, NoMetrics;
      }
      var payload := parameters[0];
      if !payload.Dict? {
        return 0, ErrorMetric(Str(NonDictPayloadError(payload)));
      }
      var error := Get<Value>(payload.entries, "error");
      if error.Some? {
        return 0, ErrorMetric(error.value);
      }
      var policies := GetOr(payload.entries, "policies", Dict([]));
      var next := PlusOne(policyVersion);
      if next.Err? {
        return 0, ErrorMetric(Str(next.error));
      }
      var newVersion := GetOr(payload.entries, "version", next.value);
      var applied := ApplyNewPolicies(policies, hookRaises);
      if !applied {
        return 0, ErrorMetric(Str("Failed to apply policies"));
      }
      policyVersion := newVersion;
      examples, metrics := 1, Snapshot(Metrics());
    }

    /** `evaluate`: the loss is the failure rate, which the metrics invariant
        keeps between zero and one, and the examples are the validations. */
    method Evaluate() returns (loss: real, examples: int)
      requires Valid()
      ensures examples == total
      ensures 0.0 <= loss <= 1.0
      ensures total > 0 ==> loss * (total as real) == failed as real
      ensures total == 0 ==> loss == 0.0
    {
      examples := total;
      if total > 0 {
        loss := failed as real / total as real;
      } else {
        loss := 0.0;
      }
    }
  }
}
