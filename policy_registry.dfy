/** The policy-as-code manager's registry: policy metadata by name, the saved
    policy files, and the transitions of update, federated import and export.
    The files on disk are kept as the dict each policy was saved with. */
module PolicyRegistry {
  import opened Wrappers
  import opened Text
  import opened Values
  import opened PolicyChecks

  type Registry = seq<(string, PolicyMetadata)>

  /** Saved policy files: the dict each policy was last written with. */
  type PolicyFiles = seq<(string, seq<(string, Value)>)>

  /** After `d[key] = v` the keys are the old ones plus `key`. */
  lemma HasKeyPut<V>(entries: seq<(string, V)>, key: string, v: V, other: string)
    ensures HasKey(Put(entries, key, v), other) <==> other == key || HasKey(entries, other)
  {
    GetPut(entries, key, v, other);
  }

  // ---------------------------------------------------------------- update

  /** `update_policy`: the result, the new registry and the new files.
      `hash` is `_calculate_policy_hash`, `show` is `str()` of a version that
      is not a string, `now` the timestamp. */
  function UpdateSpec(registry: Registry, files: PolicyFiles, name: string, pd: seq<(string, Value)>, kind: string,
                      compile: string -> Compilation, hash: Value -> string, show: Value -> string, now: string)
    : (PolicyValidation, Registry, PolicyFiles)
  {
    var v := PolicyCheck(pd, registry, compile);
    if !v.valid then (v, registry, files)
    else
      match Get(registry, name)
      case None => (Rejected("Policy '" + name + "' not found in registry"), registry, files)
      case Some(cur) =>
        var m := Updated(cur, name, pd, kind, hash, show, now);
        (PolicyValidation(true, [], v.warnings, Some(m)), Put(registry, name, m), Put(files, name, pd))
  }

  /** The new metadata: a bumped version, the old creation time, and the
      description, author and tags of the new data where it has them. */
  function Updated(cur: PolicyMetadata, name: string, pd: seq<(string, Value)>, kind: string,
                   hash: Value -> string, show: Value -> string, now: string): PolicyMetadata
  {
    var version := if cur.version.Str? then IncrementVersion(cur.version.s, kind) else show(cur.version) + ".1";
    PolicyMetadata(Str(name), Str(version), GetOr(pd, "description", cur.description),
                   GetOr(pd, "author", cur.author), cur.createdAt, Str(now), Str(hash(Dict(pd))),
                   GetOr(pd, "dependencies", List([])), GetOr(pd, "tags", cur.tags))
  }

  /** Invalid data or an unknown name changes nothing and fails. */
  lemma UpdateRejected(registry: Registry, files: PolicyFiles, name: string, pd: seq<(string, Value)>, kind: string,
                       compile: string -> Compilation, hash: Value -> string, show: Value -> string, now: string)
    requires !PolicyCheck(pd, registry, compile).valid || !HasKey(registry, name)
    ensures var (r, registry', files') := UpdateSpec(registry, files, name, pd, kind, compile, hash, show, now);
            !r.valid && registry' == registry && files' == files
  {
  }

  /** A successful update bumps the version of that one policy, keeps its
      creation time, saves the new data, and leaves every other policy alone. */
  lemma UpdateBumpsVersion(registry: Registry, files: PolicyFiles, name: string, pd: seq<(string, Value)>,
                           kind: string, compile: string -> Compilation, hash: Value -> string,
                           show: Value -> string, now: string, other: string)
    requires UpdateSpec(registry, files, name, pd, kind, compile, hash, show, now).0.valid
    ensures var (r, registry', files') := UpdateSpec(registry, files, name, pd, kind, compile, hash, show, now);
            var cur := Get(registry, name).value;
            && PolicyCheck(pd, registry, compile).valid
            && r.metadata.Some? && Get(registry', name) == r.metadata
            && r.metadata.value.createdAt == cur.createdAt
            && (cur.version.Str? ==> r.metadata.value.version == Str(IncrementVersion(cur.version.s, kind)))
            && Get(files', name) == Some(pd)
            && (other != name ==> Get(registry', other) == Get(registry, other) && Get(files', other) == Get(files, other))
  {
    var cur := Get(registry, name).value;
    var m := Updated(cur, name, pd, kind, hash, show, now);
    GetPut(registry, name, m, other);
    GetPut(files, name, pd, other);
  }

  // ---------------------------------------------------------------- import

  datatype ImportState = ImportState(results: seq<PolicyValidation>, registry: Registry, files: PolicyFiles)

  /** The metadata of an imported policy: the matching entry of the
      metadata collection, built with `PolicyMetadata(**entry)`, or defaults.
      `in` and indexing on a collection that is not a dict behave as Python's
      do on lists, strings and scalars. */
  function ImportedMetadata(name: string, pd: seq<(string, Value)>, collection: Value,
                            hash: Value -> string, now: string): Result<PolicyMetadata, string>
  {
    var fallback := PolicyMetadata(Str(name), Str("1.0.0"), GetOr(pd, "description", Str("Imported policy " + name)),
                                   Str("federated_import"), Str(now), Str(now), Str(hash(Dict(pd))),
                                   GetOr(pd, "dependencies", List([])), GetOr(pd, "tags", StrList(["imported"])));
    match collection
    case Dict(e) => if HasKey(e, name) then MetadataFromDict(Get(e, name).value) else Ok(fallback)
    case List(items) => if Str(name) in items then Err("list indices must be integers or slices, not str") else Ok(fallback)
    case Str(s) => if Contains(s, name) then Err("string indices must be integers, not 'str'") else Ok(fallback)
    case _ => Err("argument of type '" + TypeName(collection) + "' is not iterable")
  }

  /** One policy of `import_federated_policies`. */
  function ImportOne(st: ImportState, name: string, config: Value, collection: Value, overwrite: bool,
                     compile: string -> Compilation, hash: Value -> string, now: string): ImportState
  {
    if HasKey(st.registry, name) && !overwrite then
      st.(results := st.results + [Rejected("Policy '" + name + "' already exists and overwrite_existing=False")])
    else if config.List? then
      st.(results := st.results + [ListPolicyCheck(config.items)])
    else if !config.Dict? then
      st.(results := st.results + [Rejected("'" + TypeName(config) + "' object has no attribute 'copy'")])
    else
      var pd := config.entries;
      var v := PolicyCheck(pd, st.registry, compile);
      if !v.valid then st.(results := st.results + [v])
      else
        match ImportedMetadata(name, pd, collection, hash, now)
        case Err(m) => st.(results := st.results + [Rejected(m)])
        case Ok(meta) =>
          ImportState(st.results + [PolicyValidation(true, [], [], Some(meta))],
                      Put(st.registry, name, meta), Put(st.files, name, pd))
  }

  function ImportAll(st: ImportState, policies: seq<(string, Value)>, collection: Value, overwrite: bool,
                     compile: string -> Compilation, hash: Value -> string, now: string): ImportState
  {
    if policies == [] then st
    else
      var last := policies[|policies| - 1];
      ImportOne(ImportAll(st, policies[..|policies| - 1], collection, overwrite, compile, hash, now),
                last.0, last.1, collection, overwrite, compile, hash, now)
  }

  /** `import_federated_policies`: a "policies" value that is not a dict
      fails as a whole. */
  function ImportSpec(registry: Registry, files: PolicyFiles, fed: seq<(string, Value)>, overwrite: bool,
                      compile: string -> Compilation, hash: Value -> string, now: string): ImportState
  {
    var policies := GetOr(fed, "policies", Dict([]));
    var collection := GetOr(fed, "metadata", Dict([]));
    if !policies.Dict? then
      ImportState([Rejected("'" + TypeName(policies) + "' object has no attribute 'items'")], registry, files)
    else ImportAll(ImportState([], registry, files), policies.entries, collection, overwrite, compile, hash, now)
  }

  lemma ImportAllExtend(st: ImportState, policies: seq<(string, Value)>, i: nat, collection: Value, overwrite: bool,
                        compile: string -> Compilation, hash: Value -> string, now: string)
    requires i < |policies|
    ensures ImportAll(st, policies[..i + 1], collection, overwrite, compile, hash, now)
            == ImportOne(ImportAll(st, policies[..i], collection, overwrite, compile, hash, now),
                         policies[i].0, policies[i].1, collection, overwrite, compile, hash, now)
  {
    assert policies[..i + 1][..i] == policies[..i];
  }

  /** Each incoming policy adds exactly one result. */
  lemma {:induction false} ImportOneResultEach(st: ImportState, policies: seq<(string, Value)>, collection: Value,
                                               overwrite: bool, compile: string -> Compilation,
                                               hash: Value -> string, now: string)
    ensures |ImportAll(st, policies, collection, overwrite, compile, hash, now).results| == |st.results| + |policies|
  {
    if policies != [] {
      ImportOneResultEach(st, policies[..|policies| - 1], collection, overwrite, compile, hash, now);
    }
  }

  /** Without `overwrite_existing`, an imported name that is already
      registered keeps its entry and its file; and no import removes a name. */
  lemma {:induction false} ImportKeepsExisting(st: ImportState, policies: seq<(string, Value)>, collection: Value,
                                               overwrite: bool, compile: string -> Compilation,
                                               hash: Value -> string, now: string, name: string)
    ensures var st' := ImportAll(st, policies, collection, overwrite, compile, hash, now);
            && (HasKey(st.registry, name) ==> HasKey(st'.registry, name))
            && (HasKey(st.registry, name) && !overwrite ==>
                  Get(st'.registry, name) == Get(st.registry, name) && Get(st'.files, name) == Get(st.files, name))
  {
    if policies != [] {
      var init := policies[..|policies| - 1];
      var last := policies[|policies| - 1];
      ImportKeepsExisting(st, init, collection, overwrite, compile, hash, now, name);
      var mid := ImportAll(st, init, collection, overwrite, compile, hash, now);
      ImportOneKeeps(mid, last.0, last.1, collection, overwrite, compile, hash, now, name);
    }
  }

  lemma ImportOneKeeps(st: ImportState, n: string, config: Value, collection: Value, overwrite: bool,
                       compile: string -> Compilation, hash: Value -> string, now: string, name: string)
    ensures var st' := ImportOne(st, n, config, collection, overwrite, compile, hash, now);
            && (HasKey(st.registry, name) ==> HasKey(st'.registry, name))
            && (HasKey(st.registry, name) && !overwrite ==>
                  Get(st'.registry, name) == Get(st.registry, name) && Get(st'.files, name) == Get(st.files, name))
  {
    var st' := ImportOne(st, n, config, collection, overwrite, compile, hash, now);
    if st'.registry != st.registry || st'.files != st.files {
      assert !(HasKey(st.registry, n) && !overwrite) && config.Dict?;
      var meta := ImportedMetadata(n, config.entries, collection, hash, now).value;
      assert st'.registry == Put(st.registry, n, meta);
      assert st'.files == Put(st.files, n, config.entries);
      HasKeyPut(st.registry, n, meta, name);
      GetPut(st.registry, n, meta, name);
      GetPut(st.files, n, config.entries, name);
    }
  }

  /** The failure an already registered name gets without
      `overwrite_existing`. */
  function ExistsRejection(name: string): PolicyValidation
  {
    Rejected("Policy '" + name + "' already exists and overwrite_existing=False")
  }

  /** One import appends exactly one result; without `overwrite_existing`
      an already registered name gets the "already exists" failure. */
  lemma ImportOneResult(st: ImportState, name: string, config: Value, collection: Value, overwrite: bool,
                        compile: string -> Compilation, hash: Value -> string, now: string)
    ensures var st' := ImportOne(st, name, config, collection, overwrite, compile, hash, now);
            && |st'.results| == |st.results| + 1
            && st'.results[..|st.results|] == st.results
            && (HasKey(st.registry, name) && !overwrite ==> st'.results[|st.results|] == ExistsRejection(name))
  {
  }

  /** Without `overwrite_existing`, an incoming policy whose name was
      registered before the import gets the "already exists" failure at its
      own position. */
  lemma {:induction false} ImportRejectsExisting(st: ImportState, policies: seq<(string, Value)>, collection: Value,
                                                 overwrite: bool, compile: string -> Compilation,
                                                 hash: Value -> string, now: string, i: nat)
    requires i < |policies| && HasKey(st.registry, policies[i].0) && !overwrite
    ensures |ImportAll(st, policies, collection, overwrite, compile, hash, now).results| == |st.results| + |policies|
    ensures ImportAll(st, policies, collection, overwrite, compile, hash, now).results[|st.results| + i]
            == ExistsRejection(policies[i].0)
  {
    var init := policies[..|policies| - 1];
    var last := policies[|policies| - 1];
    var mid := ImportAll(st, init, collection, overwrite, compile, hash, now);
    ImportOneResultEach(st, init, collection, overwrite, compile, hash, now);
    ImportOneResult(mid, last.0, last.1, collection, overwrite, compile, hash, now);
    if i == |init| {
      ImportKeepsExisting(st, init, collection, overwrite, compile, hash, now, last.0);
    } else {
      assert policies[i] == init[i];
      ImportRejectsExisting(st, init, collection, overwrite, compile, hash, now, i);
      var st' := ImportOne(mid, last.0, last.1, collection, overwrite, compile, hash, now);
      assert st'.results[|st.results| + i] == st'.results[..|mid.results|][|st.results| + i];
    }
  }

  /** `import_federated_policies` without `overwrite_existing`: each incoming
      policy whose name is registered is answered, at its own position, with
      the "already exists" failure. */
  lemma ImportAnswersExisting(registry: Registry, files: PolicyFiles, fed: seq<(string, Value)>,
                              compile: string -> Compilation, hash: Value -> string, now: string, i: nat)
    requires GetOr(fed, "policies", Dict([])).Dict?
    requires i < |GetOr(fed, "policies", Dict([])).entries|
    requires HasKey(registry, GetOr(fed, "policies", Dict([])).entries[i].0)
    ensures var policies := GetOr(fed, "policies", Dict([])).entries;
            var st := ImportSpec(registry, files, fed, false, compile, hash, now);
            && |st.results| == |policies|
            && !st.results[i].valid
            && st.results[i] == ExistsRejection(policies[i].0)
  {
    var policies := GetOr(fed, "policies", Dict([])).entries;
    var collection := GetOr(fed, "metadata", Dict([]));
    ImportRejectsExisting(ImportState([], registry, files), policies, collection, false, compile, hash, now, i);
  }

  /** The whole import: one result per incoming policy (or the single
      failure of a "policies" value that is not a dict), registered names
      kept unless overwriting is asked for, and then each of them answered
      with the "already exists" failure. */
  lemma ImportMeaning(registry: Registry, files: PolicyFiles, fed: seq<(string, Value)>, overwrite: bool,
                      compile: string -> Compilation, hash: Value -> string, now: string, name: string)
    ensures var policies := GetOr(fed, "policies", Dict([]));
            var st := ImportSpec(registry, files, fed, overwrite, compile, hash, now);
            && |st.results| == (if policies.Dict? then |policies.entries| else 1)
            && (HasKey(registry, name) ==> HasKey(st.registry, name))
            && (HasKey(registry, name) && !overwrite ==>
                  Get(st.registry, name) == Get(registry, name) && Get(st.files, name) == Get(files, name))
  {
    var policies := GetOr(fed, "policies", Dict([]));
    var collection := GetOr(fed, "metadata", Dict([]));
    if policies.Dict? {
      ImportOneResultEach(ImportState([], registry, files), policies.entries, collection, overwrite, compile, hash, now);
      ImportKeepsExisting(ImportState([], registry, files), policies.entries, collection, overwrite, compile, hash, now, name);
    }
  }

  // ---------------------------------------------------------------- export

  /** The exported policies and metadata for `names`: registered names whose
      saved policy is a non-empty dict. */
  function ExportEntries(registry: Registry, files: PolicyFiles, names: seq<string>)
    : (seq<(string, Value)>, seq<(string, Value)>)
  {
    if names == [] then ([], [])
    else
      var (policies, metadata) := ExportEntries(registry, files, names[..|names| - 1]);
      var n := names[|names| - 1];
      if HasKey(registry, n) && Get(files, n).Some? && Get(files, n).value != [] then
        (Put(policies, n, Dict(Get(files, n).value)), Put(metadata, n, MetadataDict(Get(registry, n).value)))
      else (policies, metadata)
  }

  predicate Exportable(registry: Registry, files: PolicyFiles, n: string)
  {
    HasKey(registry, n) && Get(files, n).Some? && Get(files, n).value != []
  }

  /** `export_policies_for_federation`; no names means every registered one. */
  function ExportSpec(registry: Registry, files: PolicyFiles, names: Option<seq<string>>, now: string): Value
  {
    var ns := if names.None? then Keys(registry) else names.value;
    var (policies, metadata) := ExportEntries(registry, files, ns);
    Dict([("policies", Dict(policies)), ("metadata", Dict(metadata)),
          ("export_timestamp", Str(now)), ("format_version", Str("1.0"))])
  }

  /** A name is exported exactly when it was asked for, is registered and
      has a non-empty saved policy; its metadata is the registry's. */
  lemma {:induction false} ExportEntriesMeaning(registry: Registry, files: PolicyFiles, names: seq<string>, n: string)
    ensures var (policies, metadata) := ExportEntries(registry, files, names);
            && (HasKey(policies, n) <==> n in names && Exportable(registry, files, n))
            && (HasKey(metadata, n) <==> HasKey(policies, n))
            && (HasKey(policies, n) ==>
                  Get(policies, n) == Some(Dict(Get(files, n).value))
                  && Get(metadata, n) == Some(MetadataDict(Get(registry, n).value)))
  {
    if names != [] {
      var init := names[..|names| - 1];
      var last := names[|names| - 1];
      ExportEntriesMeaning(registry, files, init, n);
      assert names == init + [last];
      var (p0, m0) := ExportEntries(registry, files, init);
      if Exportable(registry, files, last) {
        var pv := Dict(Get(files, last).value);
        var mv := MetadataDict(Get(registry, last).value);
        GetPut(p0, last, pv, n);
        GetPut(m0, last, mv, n);
      }
    }
  }

  /** Export includes only registered names. */
  lemma ExportOnlyRegistered(registry: Registry, files: PolicyFiles, names: Option<seq<string>>, now: string, n: string)
    ensures var out := ExportSpec(registry, files, names, now);
            var policies := Get(out.entries, "policies").value;
            && policies.Dict?
            && (HasKey(policies.entries, n) <==>
                  (names.None? || n in names.value) && Exportable(registry, files, n))
  {
    var ns := if names.None? then Keys(registry) else names.value;
    ExportEntriesMeaning(registry, files, ns, n);
    if names.None? && Exportable(registry, files, n) {
      KeyInKeys(registry, n);
    }
  }

  lemma {:induction false} KeyInKeys<V>(entries: seq<(string, V)>, n: string)
    requires HasKey(entries, n)
    ensures n in Keys(entries)
  {
    if entries[0].0 != n {
      KeyInKeys(entries[1..], n);
      var i :| 0 <= i < |entries[1..]| && Keys(entries[1..])[i] == n;
      assert Keys(entries)[i + 1] == n;
    } else {
      assert Keys(entries)[0] == n;
    }
  }

  // ---------------------------------------------------------------- loops of validate_policy

  method ValidatorItemErrors(items: seq<Value>) returns (errors: seq<string>)
    ensures errors == ItemErrors(items)
  {
    errors := [];
    var i := 0;
    while i < |items|
      invariant 0 <= i <= |items|
      invariant errors == ItemErrors(items[..i])
    {
      assert items[..i + 1][..i] == items[..i];
      errors := errors + ItemError(i, items[i]);
      i := i + 1;
    }
    assert items[..|items|] == items;
  }

  method DependencyChecks(deps: seq<Value>, registry: Registry) returns (errors: seq<string>, warnings: seq<string>)
    ensures errors == DepErrors(deps) && warnings == DepWarnings(deps, registry)
  {
    errors, warnings := [], [];
    var i := 0;
    while i < |deps|
      invariant 0 <= i <= |deps|
      invariant errors == DepErrors(deps[..i]) && warnings == DepWarnings(deps[..i], registry)
    {
      assert deps[..i + 1][..i] == deps[..i];
      var dep := deps[i];
      if !dep.Str? {
        errors := errors + ["All dependencies must be strings"];
      } else if !HasKey(registry, dep.s) {
        warnings := warnings + ["Dependency '" + dep.s + "' not found in registry"];
      }
      i := i + 1;
    }
    assert deps[..|deps|] == deps;
  }

  method CustomCodeChecks(entries: seq<(string, Value)>, compile: string -> Compilation)
    returns (r: Result<seq<string>, string>)
    ensures r == CustomErrors(entries, compile)
  {
    var errors := [];
    var i := 0;
    while i < |entries|
      invariant 0 <= i <= |entries|
      invariant CustomErrors(entries[..i], compile) == Ok(errors)
    {
      var pre := entries[..i + 1];
      assert pre[..|pre| - 1] == entries[..i] && pre[|pre| - 1] == entries[i];
      var verdict := ValidateCustomValidatorCode(entries[i].1, compile);
      if verdict.Err? {
        CustomErrorsPrefix(entries, i + 1, compile);
        return Err(verdict.error);
      }
      var added := if verdict.value then [] else ["Invalid custom validator code for '" + entries[i].0 + "'"];
      assert CustomErrors(pre, compile) == Ok(errors + added);
      errors := errors + added;
      i := i + 1;
    }
    assert entries[..|entries|] == entries;
    r := Ok(errors);
  }

  /** An error in a prefix of the custom validators is the error of all. */
  lemma {:induction false} CustomErrorsPrefix(entries: seq<(string, Value)>, k: nat, compile: string -> Compilation)
    requires k <= |entries|
    ensures CustomErrors(entries[..k], compile).Err? ==> CustomErrors(entries, compile) == CustomErrors(entries[..k], compile)
  {
    if k < |entries| {
      var init := entries[..|entries| - 1];
      assert init[..k] == entries[..k];
      CustomErrorsPrefix(init, k, compile);
    } else {
      assert entries[..k] == entries;
    }
  }

  /** The checks of `validate_policy` that cannot raise. */
  method StructuralChecks(pd: seq<(string, Value)>, registry: Registry) returns (errors: seq<string>, warnings: seq<string>)
    ensures errors == RequiredErrors(pd) + ValidatorsErrors(pd) + ActionErrors(pd) + DependencyErrors(pd)
    ensures warnings == DependencyWarnings(pd, registry)
  {
    var required := RequiredChecks(pd);
    var validators := ValidatorsChecks(pd);
    var action: seq<string> := [];
    var a := Get(pd, "on_fail_action");
    if a.Some? && !(a.value.Str? && a.value.s in ValidActions) {
      action := [InvalidAction];
    }
    assert action == ActionErrors(pd);
    var deps;
    deps, warnings := DependenciesChecks(pd, registry);
    errors := required + validators + action + deps;
  }

  method ValidatorsChecks(pd: seq<(string, Value)>) returns (errors: seq<string>)
    ensures errors == ValidatorsErrors(pd)
  {
    errors := [];
    var validators := Get(pd, "validators");
    if validators.Some? {
      if validators.value.List? {
        errors := ValidatorItemErrors(validators.value.items);
      } else {
        errors := ["'validators' must be a list"];
      }
    }
  }

  method DependenciesChecks(pd: seq<(string, Value)>, registry: Registry) returns (errors: seq<string>, warnings: seq<string>)
    ensures errors == DependencyErrors(pd) && warnings == DependencyWarnings(pd, registry)
  {
    errors, warnings := [], [];
    var deps := Get(pd, "dependencies");
    if deps.Some? {
      if deps.value.List? {
        errors, warnings := DependencyChecks(deps.value.items, registry);
      } else {
        errors := ["'dependencies' must be a list"];
      }
    }
  }

  method RequiredChecks(pd: seq<(string, Value)>) returns (errors: seq<string>)
    ensures errors == RequiredErrors(pd)
  {
    errors := [];
    var i := 0;
    while i < |RequiredFields|
      invariant 0 <= i <= |RequiredFields|
      invariant errors == MissingOf(pd, RequiredFields[..i])
    {
      assert RequiredFields[..i + 1][..i] == RequiredFields[..i];
      if !HasKey(pd, RequiredFields[i]) {
        errors := errors + [MissingMessage(RequiredFields[i])];
      }
      i := i + 1;
    }
    assert RequiredFields[..|RequiredFields|] == RequiredFields;
  }

  // ---------------------------------------------------------------- the manager

  class PolicyManager {
    var registry: Registry
    var files: PolicyFiles

    /** A manager over an empty repository. */
    constructor()
      ensures registry == [] && files == []
    {
      registry := [];
      files := [];
    }

    /** `validate_policy`, check by check. */
    method ValidatePolicy(pd: seq<(string, Value)>, compile: string -> Compilation) returns (r: PolicyValidation)
      ensures r == PolicyCheck(pd, registry, compile)
    {
      var errors, warnings := StructuralChecks(pd, registry);
      var customErrors: seq<string> := [];
      var custom := Get(pd, "custom_validators");
      if custom.Some? && custom.value.Dict? {
        var checked := CustomCodeChecks(custom.value.entries, compile);
        if checked.Err? {
          PolicyCheckRaised(pd, registry, compile);
          return Rejected("Validation error: " + checked.error);
        }
        customErrors := checked.value;
      }
      assert CustomValidatorErrors(pd, compile) == Ok(customErrors);
      errors := errors + customErrors;
      var perf: seq<string> := [];
      var validators := Get(pd, "validators");
      if validators.Some? {
        var n := Len(validators.value);
        if n.None? {
          var message := "object of type '" + TypeName(validators.value) + "' has no len()";
          assert PerformanceWarnings(pd) == Err(message);
          PolicyCheckRaised(pd, registry, compile);
          return Rejected("Validation error: " + message);
        }
        if n.value > 10 {
          perf := [TooManyValidators];
        }
      }
      assert PerformanceWarnings(pd) == Ok(perf);
      PolicyCheckErrors(pd, registry, compile);
      PolicyCheckWarnings(pd, registry, compile);
      r := PolicyValidation(errors == [], errors, warnings + perf, None);
    }

    /** `update_policy`. */
    method UpdatePolicy(name: string, pd: seq<(string, Value)>, kind: string, compile: string -> Compilation,
                        hash: Value -> string, show: Value -> string, now: string)
      returns (r: PolicyValidation)
      modifies this
      ensures (r, registry, files) == UpdateSpec(old(registry), old(files), name, pd, kind, compile, hash, show, now)
    {
      var validation := ValidatePolicy(pd, compile);
      if !validation.valid {
        return validation;
      }
      var current := Get(registry, name);
      if current.None? {
        return Rejected("Policy '" + name + "' not found in registry");
      }
      var cur := current.value;
      var version := if cur.version.Str? then IncrementVersion(cur.version.s, kind) else show(cur.version) + ".1";
      var m := PolicyMetadata(Str(name), Str(version), GetOr(pd, "description", cur.description),
                              GetOr(pd, "author", cur.author), cur.createdAt, Str(now), Str(hash(Dict(pd))),
                              GetOr(pd, "dependencies", List([])), GetOr(pd, "tags", cur.tags));
      files := Put(files, name, pd);
      registry := Put(registry, name, m);
      r := PolicyValidation(true, [], validation.warnings, Some(m));
    }

    /** One incoming policy of `import_federated_policies`. */
    method ImportPolicy(name: string, config: Value, collection: Value, overwrite: bool,
                        compile: string -> Compilation, hash: Value -> string, now: string)
      returns (r: PolicyValidation)
      modifies this
      ensures ImportState([r], registry, files)
              == ImportOne(ImportState([], old(registry), old(files)), name, config, collection, overwrite,
                           compile, hash, now)
    {
      if HasKey(registry, name) && !overwrite {
        return Rejected("Policy '" + name + "' already exists and overwrite_existing=False");
      }
      if config.List? {
        return ListPolicyCheck(config.items);
      }
      if !config.Dict? {
        return Rejected("'" + TypeName(config) + "' object has no attribute 'copy'");
      }
      var pd := config.entries;
      var validation := ValidatePolicy(pd, compile);
      if !validation.valid {
        return validation;
      }
      var meta := ImportedMetadata(name, pd, collection, hash, now);
      if meta.Err? {
        return Rejected(meta.error);
      }
      files := Put(files, name, pd);
      registry := Put(registry, name, meta.value);
      r := PolicyValidation(true, [], [], Some(meta.value));
    }

    /** `import_federated_policies`. */
    method ImportFederatedPolicies(fed: seq<(string, Value)>, overwrite: bool, compile: string -> Compilation,
                                   hash: Value -> string, now: string)
      returns (results: seq<PolicyValidation>)
      modifies this
      ensures ImportState(results, registry, files) == ImportSpec(old(registry), old(files), fed, overwrite, compile, hash, now)
    {
      var policies := GetOr(fed, "policies", Dict([]));
      var collection := GetOr(fed, "metadata", Dict([]));
      if !policies.Dict? {
        return [Rejected("'" + TypeName(policies) + "' object has no attribute 'items'")];
      }
      var ps := policies.entries;
      ghost var start := ImportState([], registry, files);
      results := [];
      var i := 0;
      while i < |ps|
        invariant 0 <= i <= |ps|
        invariant ImportState(results, registry, files) == ImportAll(start, ps[..i], collection, overwrite, compile, hash, now)
      {
        ImportAllExtend(start, ps, i, collection, overwrite, compile, hash, now);
        ghost var before := ImportState(results, registry, files);
        var r := ImportPolicy(ps[i].0, ps[i].1, collection, overwrite, compile, hash, now);
        ImportOneAppends(before, ps[i].0, ps[i].1, collection, overwrite, compile, hash, now);
        results := results + [r];
        i := i + 1;
      }
      assert ps[..|ps|] == ps;
    }

    /** `export_policies_for_federation`; reads the saved files. */
    method ExportPoliciesForFederation(names: Option<seq<string>>, now: string) returns (out: Value)
      ensures out == ExportSpec(registry, files, names, now)
    {
      var ns := if names.None? then Keys(registry) else names.value;
      var policies: seq<(string, Value)> := [];
      var metadata: seq<(string, Value)> := [];
      var i := 0;
      while i < |ns|
        invariant 0 <= i <= |ns|
        invariant (policies, metadata) == ExportEntries(registry, files, ns[..i])
      {
        assert ns[..i + 1][..i] == ns[..i];
        var n := ns[i];
        if HasKey(registry, n) {
          var saved := Get(files, n);
          if saved.Some? && saved.value != [] {
            policies := Put(policies, n, Dict(saved.value));
            metadata := Put(metadata, n, MetadataDict(Get(registry, n).value));
          }
        }
        i := i + 1;
      }
      assert ns[..|ns|] == ns;
      out := Dict([("policies", Dict(policies)), ("metadata", Dict(metadata)),
                   ("export_timestamp", Str(now)), ("format_version", Str("1.0"))]);
    }
  }

  /** A policy's import depends on the results so far only by appending. */
  lemma ImportOneAppends(st: ImportState, name: string, config: Value, collection: Value, overwrite: bool,
                         compile: string -> Compilation, hash: Value -> string, now: string)
    ensures var one := ImportOne(ImportState([], st.registry, st.files), name, config, collection, overwrite,
                                 compile, hash, now);
            ImportOne(st, name, config, collection, overwrite, compile, hash, now)
            == ImportState(st.results + one.results, one.registry, one.files)
  {
  }
}
