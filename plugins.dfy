/** The plugin registry: two plugin kinds with their initialisation and
    health flags, and the manager that registers plugins, keeps an active
    one and switches between them. */
module PluginSystem {
  import opened Wrappers
  import opened Values

  datatype PluginKind = MockGuardrails | OpenAIModeration

  /** A plugin's `ValidationResult`; the confidence is left out. */
  datatype PluginResult = PluginResult(validatorName: string, status: string, message: string, onFailAction: string)

  /** A plugin's `GuardrailsResponse`; the execution time is left out. */
  datatype PluginResponse = PluginResponse(
    status: string,
    message: string,
    valid: bool,
    validations: seq<PluginResult>,
    processedText: Option<string>,
    pluginName: string)

  const ApiKeyField: string := "openai_api_key"

  /** A plugin object. `apiKey` is the OpenAI plugin's `_api_key`, `Null`
      while unset; `config` is the mock plugin's `_config`. */
  class Plugin {
    const kind: PluginKind
    var initialized: bool
    var config: seq<(string, Value)>
    var apiKey: Value

    constructor(kind: PluginKind)
      ensures this.kind == kind && !initialized && config == [] && apiKey == Null
    {
      this.kind := kind;
      initialized := false;
      config := [];
      apiKey := Null;
    }

    function Name(): string
    {
      match kind
      case MockGuardrails => "mock_guardrails"
      case OpenAIModeration => "openai_moderation"
    }

    function Version(): string
    {
      "1.0.0"
    }

    /** The mock plugin keeps any configuration. The OpenAI plugin stores
        whatever `openai_api_key` holds and succeeds only when it is truthy;
        a failed attempt does not clear an earlier success. */
    method Initialize(c: seq<(string, Value)>) returns (ok: bool)
      modifies this
      ensures kind == MockGuardrails ==> ok && initialized && config == c && apiKey == old(apiKey)
      ensures kind == OpenAIModeration ==>
                && apiKey == GetOr(c, ApiKeyField, Null)
                && ok == Truthy(apiKey)
                && initialized == (old(initialized) || ok)
                && config == old(config)
    {
      if kind == MockGuardrails {
        config := c;
        initialized := true;
        return true;
      }
      apiKey := GetOr(c, ApiKeyField, Null);
      if !Truthy(apiKey) {
        return false;
      }
      initialized := true;
      ok := true;
    }

    /** `health_check`. */
    predicate Healthy()
      reads this
    {
      match kind
      case MockGuardrails => initialized
      case OpenAIModeration => initialized && apiKey != Null
    }

    /** The OpenAI plugin's `validate_text`: refused unless initialised with
        a truthy key; otherwise the simulated moderation passes. */
    function Moderate(text: string): (r: PluginResponse)
      requires kind == OpenAIModeration
      reads this
      ensures r.valid <==> initialized && Truthy(apiKey)
      ensures r.pluginName == "openai_moderation"
      ensures r.valid ==> |r.validations| == 1 && r.validations[0].status == "pass"
      ensures !r.valid ==> r.validations == [] && r.message == "Plugin not properly initialized"
    {
      if !initialized || !Truthy(apiKey) then
        PluginResponse("failure", "Plugin not properly initialized", false, [], None, Name())
      else
        PluginResponse("success", "OpenAI moderation completed", true,
                       [PluginResult("openai_moderation", "pass", "Content passed OpenAI moderation", "exception")],
                       None, Name())
    }
  }

  /** One entry of `list_plugins`. */
  datatype PluginInfo = PluginInfo(name: string, version: string, healthy: bool, active: bool)

  function InfoOf(p: Plugin, active: Plugin?): PluginInfo
    reads p
  {
    PluginInfo(p.Name(), p.Version(), p.Healthy(), p == active)
  }

  function Objects(ps: seq<(string, Plugin)>): set<Plugin>
  {
    set i | 0 <= i < |ps| :: ps[i].1
  }

  /** The `list_plugins` dict, built entry by entry. */
  function Infos(ps: seq<(string, Plugin)>, active: Plugin?): seq<(string, PluginInfo)>
    reads Objects(ps)
  {
    if ps == [] then []
    else
      var last := ps[|ps| - 1];
      assert last.1 in Objects(ps);
      Infos(ps[..|ps| - 1], active) + [(last.0, InfoOf(last.1, active))]
  }

  /** `list_plugins` reports every registered plugin under its key, with its
      health, and marks active exactly the active object. */
  lemma {:induction false} InfosMeaning(ps: seq<(string, Plugin)>, active: Plugin?)
    ensures |Infos(ps, active)| == |ps|
    ensures forall i :: 0 <= i < |ps| ==>
              && Infos(ps, active)[i].0 == ps[i].0
              && Infos(ps, active)[i].1.healthy == ps[i].1.Healthy()
              && (Infos(ps, active)[i].1.active <==> ps[i].1 == active)
  {
    if ps != [] {
      var init := ps[..|ps| - 1];
      InfosMeaning(init, active);
      assert forall i :: 0 <= i < |init| ==> init[i] == ps[i];
    }
  }

  /** In a listing of plugins stored under distinct names, each under its
      own name, one entry per name, and at most one is marked active. */
  lemma OneActive(ps: seq<(string, Plugin)>, active: Plugin?)
    requires NamesMatch(ps) && DistinctKeys(ps)
    ensures |Infos(ps, active)| == |ps| && DistinctKeys(Infos(ps, active))
    ensures forall i, j :: 0 <= i < j < |ps| ==> !(Infos(ps, active)[i].1.active && Infos(ps, active)[j].1.active)
  {
    InfosMeaning(ps, active);
  }

  class PluginManager {
    var plugins: seq<(string, Plugin)>
    var configs: seq<(string, seq<(string, Value)>)>
    var active: Plugin?

    /** Every plugin is stored under its own name, and no name twice. */
    ghost predicate Valid()
      reads this
    {
      NamesMatch(plugins) && DistinctKeys(plugins)
    }

    constructor()
      ensures Valid() && plugins == [] && configs == [] && active == null
    {
      plugins := [];
      configs := [];
      active := null;
    }

    /** `register_plugin`: a non-empty configuration must initialise the
        plugin, or nothing is registered; the first plugin registered becomes
        the active one. `None` and `{}` register without initialising. */
    method RegisterPlugin(plugin: Plugin, config: Option<seq<(string, Value)>>) returns (ok: bool)
      requires Valid()
      modifies this, plugin
      ensures Valid()
      ensures var initialize := config.Some? && config.value != [];
              && (!initialize ==> unchanged(plugin))
              && (initialize && plugin.kind == MockGuardrails ==> plugin.initialized && plugin.config == config.value)
              && (initialize && plugin.kind == OpenAIModeration ==>
                    plugin.apiKey == GetOr(config.value, ApiKeyField, Null)
                    && plugin.initialized == (old(plugin.initialized) || Truthy(plugin.apiKey)))
              && (ok <==> !initialize || plugin.kind == MockGuardrails || Truthy(plugin.apiKey))
      ensures !ok ==> plugins == old(plugins) && configs == old(configs) && active == old(active)
      ensures ok ==>
              && plugins == Put(old(plugins), plugin.Name(), plugin)
              && configs == Put(old(configs), plugin.Name(), if config.Some? then config.value else [])
              && active == (if old(active) == null then plugin else old(active))
    {
      if config.Some? && config.value != [] {
        var initialized := plugin.Initialize(config.value);
        if !initialized {
          return false;
        }
      }
      PutKeepsNames(plugins, plugin);
      PutDistinct(plugins, plugin.Name(), plugin);
      plugins := Put(plugins, plugin.Name(), plugin);
      configs := Put(configs, plugin.Name(), if config.Some? then config.value else []);
      if active == null {
        active := plugin;
      }
      ok := true;
    }

    /** `switch_plugin`: only a registered, healthy plugin becomes active. */
    method SwitchPlugin(name: string) returns (ok: bool)
      modifies this
      ensures plugins == old(plugins) && configs == old(configs)
      ensures ok <==> HasKey(plugins, name) && Get(plugins, name).value.Healthy()
      ensures active == if ok then Get(plugins, name).value else old(active)
    {
      var found := Get(plugins, name);
      if found.None? {
        return false;
      }
      if !found.value.Healthy() {
        return false;
      }
      active := found.value;
      ok := true;
    }

    /** `list_plugins`. */
    method ListPlugins() returns (info: seq<(string, PluginInfo)>)
      requires Valid()
      ensures info == Infos(plugins, active)
      ensures |info| == |plugins| && DistinctKeys(info)
      ensures forall i, j :: 0 <= i < j < |info| ==> !(info[i].1.active && info[j].1.active)
    {
      info := [];
      var i := 0;
      while i < |plugins|
        invariant 0 <= i <= |plugins|
        invariant info == Infos(plugins[..i], active)
      {
        var prefix := plugins[..i + 1];
        assert prefix[..i] == plugins[..i] && prefix[i] == plugins[i];
        var (name, plugin) := plugins[i];
        info := info + [(name, PluginInfo(plugin.Name(), plugin.Version(), plugin.Healthy(), plugin == active))];
        i := i + 1;
      }
      assert plugins[..|plugins|] == plugins;
      OneActive(plugins, active);
    }
  }

  predicate NamesMatch(ps: seq<(string, Plugin)>)
  {
    forall i :: 0 <= i < |ps| ==> ps[i].0 == ps[i].1.Name()
  }

  /** Storing a plugin under its name keeps every plugin under its own name. */
  lemma {:induction false} PutKeepsNames(ps: seq<(string, Plugin)>, p: Plugin)
    requires NamesMatch(ps)
    ensures NamesMatch(Put(ps, p.Name(), p))
  {
    if ps != [] && ps[0].0 != p.Name() {
      PutKeepsNames(ps[1..], p);
      var rest := Put(ps[1..], p.Name(), p);
      assert Put(ps, p.Name(), p) == [ps[0]] + rest;
    }
  }

  /** `initialize_default_plugins`: both plugins are registered with `{}`,
      so neither is initialised; the mock plugin is active, neither is
      healthy, and switching to either fails. */
  method InitializeDefaultPlugins() returns (manager: PluginManager, switchMock: bool, switchOpenAI: bool)
    ensures Keys(manager.plugins) == ["mock_guardrails", "openai_moderation"]
    ensures manager.active != null && manager.active.kind == MockGuardrails
    ensures forall i :: 0 <= i < |manager.plugins| ==> !manager.plugins[i].1.Healthy()
    ensures !switchMock && !switchOpenAI
  {
    manager := new PluginManager();
    var mock := new Plugin(MockGuardrails);
    var ok1 := manager.RegisterPlugin(mock, Some([]));
    var openai := new Plugin(OpenAIModeration);
    var ok2 := manager.RegisterPlugin(openai, Some([]));
    assert manager.plugins == [("mock_guardrails", mock), ("openai_moderation", openai)];
    switchMock := manager.SwitchPlugin("mock_guardrails");
    switchOpenAI := manager.SwitchPlugin("openai_moderation");
  }

  /** A second initialisation with an empty key leaves the OpenAI plugin
      healthy (the key is no longer `None`) while its validation refuses. */
  method HealthyButRefusing() returns (healthy: bool, response: PluginResponse)
    ensures healthy && !response.valid
  {
    var p := new Plugin(OpenAIModeration);
    var first := p.Initialize([(ApiKeyField, Str("sk-test"))]);
    var second := p.Initialize([(ApiKeyField, Str(""))]);
    healthy := p.Healthy();
    response := p.Moderate("hello");
  }
}
