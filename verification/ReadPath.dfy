/** What a read does to an agent: the repair it persists and the expansion of
    tools and servers it only shows. */
module ReadPath {
  import opened Wrappers
  import opened Json
  import opened AgentModel
  import opened ToolCatalog
  import opened ConfigProcessor

  const REPAIR_MODEL: string := "openai/gpt-5.6-luna"

  // ----- Repair -----

  function SanitizedName(name: string): (sanitized: string)
    ensures |sanitized| == |name|
  {
    seq(|name|, i requires 0 <= i < |name| => if NameChar(name[i]) then name[i] else '_')
  }

  method SanitizeName(name: string) returns (sanitized: string)
    ensures sanitized == SanitizedName(name)
  {
    sanitized := "";
    for i := 0 to |name|
      invariant sanitized == SanitizedName(name)[..i]
    {
      sanitized := sanitized + [if NameChar(name[i]) then name[i] else '_'];
    }
  }

  /** The id list whose presence makes an expansion key reconstructible. */
  function IdsKey(key: string): Option<string> {
    if key == "custom_tools" then Some("custom_tool_ids")
    else if key == "custom_mcp_servers" then Some("custom_mcp_server_ids")
    else None
  }

  predicate Expandable(config: Object, key: string) {
    IdsKey(key).Some? && HoldsList(config, IdsKey(key).value)
  }

  const REPAIRED_KEYS: set<string> := {
    "api_key", "temperature", "max_tokens", "tools", "custom_tools", "mcp_servers", "custom_mcp_servers"}

  function Placeholder(key: string): Value {
    if key == "api_key" then Str("")
    else if key == "temperature" then Num(0.7)
    else if key == "max_tokens" then Num(1000.0)
    else Arr([])
  }

  /** The config of a flow agent rewritten for the LLM kind, key by key. */
  function Repaired(config: Object): Object {
    map key | key in config.Keys + REPAIRED_KEYS && key != "sub_agents"
      && (Expandable(config, key) ==> key in config) ::
      if key in REPAIRED_KEYS && Get(config, key).Null? && !Expandable(config, key) then Placeholder(key)
      else Get(config, key)
  }

  predicate NeedsRepair(agent: Agent) {
    !agent.config.Blank? && IsFlow(agent.kind) && !HoldsList(Fields(agent.config), "sub_agents")
  }

  function RepairedAgent(agent: Agent): Agent {
    if NeedsRepair(agent)
    then agent.(kind := LLM, model := OrElse(agent.model, REPAIR_MODEL),
      config := Document(Repaired(Fields(agent.config))))
    else agent
  }

  /** What sanitizeAgent makes of a loaded agent before deciding to write it. */
  function Sanitized(agent: Agent): Agent {
    RepairedAgent(agent.(name := SanitizedName(agent.name)))
  }

  predicate EmptyPlaceholder(v: Value) {
    v.Null? || v == Arr([]) || v == Obj(map[])
  }

  method DropEmptyPlaceholder(target: Object, key: string, source: Object, idsKey: string) returns (dropped: Object)
    ensures dropped == if HoldsList(source, idsKey) && EmptyPlaceholder(Get(target, key)) then target - {key}
      else target
  {
    if !HoldsList(source, idsKey) {
      return target;
    }
    match Get(target, key) {
      case Null => return target - {key};
      case Arr(items) => return if items == [] then target - {key} else target;
      case Obj(fields) => return if fields == map[] then target - {key} else target;
      case _ => return target;
    }
  }

  /** The copy-back loop: every stored key the rewrite does not hold yet. */
  method CopyBack(config: Object, rewritten: Object) returns (filled: Object)
    ensures forall key :: key in filled <==> key in rewritten || (key in config && key != "sub_agents")
    ensures forall key :: key in filled ==> filled[key] == if key in rewritten then rewritten[key] else config[key]
  {
    filled := rewritten;
    var todo := config.Keys;
    while todo != {}
      invariant todo <= config.Keys
      invariant forall key :: key in filled <==>
        key in rewritten || (key in config && key !in todo && key != "sub_agents")
      invariant forall key :: key in filled ==> filled[key] == if key in rewritten then rewritten[key] else config[key]
      decreases |todo|
    {
      var key :| key in todo;
      todo := todo - {key};
      if key !in filled && key != "sub_agents" {
        filled := filled[key := config[key]];
      }
    }
  }

  /** The seven keys an LLM config starts from. */
  function LlmBase(config: Object): Object {
    map key | key in REPAIRED_KEYS :: if Get(config, key).Null? then Placeholder(key) else Get(config, key)
  }

  method NilOr(v: Value, default: Value) returns (chosen: Value)
    ensures chosen == if v.Null? then default else v
  {
    chosen := v;
    if v.Null? {
      chosen := default;
    }
  }

  predicate HoldsBase(llm: Object, config: Object, key: string) {
    key in llm && llm[key] == if Get(config, key).Null? then Placeholder(key) else Get(config, key)
  }

  /** Seven keys, each with its stored value or its placeholder, are the base. */
  lemma SevenKeys(llm: Object, config: Object)
    requires llm.Keys == REPAIRED_KEYS
    requires HoldsBase(llm, config, "api_key") && HoldsBase(llm, config, "temperature")
      && HoldsBase(llm, config, "max_tokens")
    requires HoldsBase(llm, config, "tools") && HoldsBase(llm, config, "custom_tools")
    requires HoldsBase(llm, config, "mcp_servers") && HoldsBase(llm, config, "custom_mcp_servers")
    ensures llm == LlmBase(config)
  {
    forall key | key in REPAIRED_KEYS ensures llm[key] == LlmBase(config)[key] {
      assert HoldsBase(llm, config, key);
    }
  }

  method BuildLlmBase(config: Object) returns (llm: Object)
    ensures llm == LlmBase(config)
  {
    var apiKey := NilOr(Get(config, "api_key"), Str(""));
    var temperature := NilOr(Get(config, "temperature"), Num(0.7));
    var maxTokens := NilOr(Get(config, "max_tokens"), Num(1000.0));
    var tools := NilOr(Get(config, "tools"), Arr([]));
    var customTools := NilOr(Get(config, "custom_tools"), Arr([]));
    var servers := NilOr(Get(config, "mcp_servers"), Arr([]));
    var customServers := NilOr(Get(config, "custom_mcp_servers"), Arr([]));
    llm := map["api_key" := apiKey, "temperature" := temperature, "max_tokens" := maxTokens, "tools" := tools,
               "custom_tools" := customTools, "mcp_servers" := servers, "custom_mcp_servers" := customServers];
    SevenKeys(llm, config);
  }

  /** Which base keys survive the two placeholder drops. */
  ghost predicate DroppedFrom(config: Object, dropped: Object) {
    && (forall key :: key in dropped <==>
          key in REPAIRED_KEYS && !(Expandable(config, key) && EmptyPlaceholder(LlmBase(config)[key])))
    && (forall key :: key in dropped ==> dropped[key] == LlmBase(config)[key])
  }

  method DropPlaceholders(config: Object) returns (dropped: Object)
    ensures DroppedFrom(config, dropped)
  {
    dropped := BuildLlmBase(config);
    dropped := DropEmptyPlaceholder(dropped, "custom_tools", config, "custom_tool_ids");
    dropped := DropEmptyPlaceholder(dropped, "custom_mcp_servers", config, "custom_mcp_server_ids");
  }

  lemma ExpandableAreRepaired(config: Object, key: string)
    requires Expandable(config, key)
    ensures key in REPAIRED_KEYS && key != "sub_agents" && Placeholder(key) == Arr([])
  {
  }

  lemma CopyBackKey(config: Object, dropped: Object, filled: Object, key: string)
    requires key in dropped <==>
      key in REPAIRED_KEYS && !(Expandable(config, key) && EmptyPlaceholder(LlmBase(config)[key]))
    requires key in dropped ==> dropped[key] == LlmBase(config)[key]
    requires key in filled <==> key in dropped || (key in config && key != "sub_agents")
    requires key in filled ==> filled[key] == if key in dropped then dropped[key] else config[key]
    ensures key in filled <==> key in Repaired(config)
    ensures key in filled ==> filled[key] == Repaired(config)[key]
  {
    if Expandable(config, key) {
      ExpandableAreRepaired(config, key);
    }
  }

  /** Despite the drop, the copy-back loop restores a stored empty expansion, so
      an expansion key comes out exactly as it went in. */
  lemma CopyBackIsRepaired(config: Object, dropped: Object, filled: Object)
    requires DroppedFrom(config, dropped)
    requires forall key :: key in filled <==> key in dropped || (key in config && key != "sub_agents")
    requires forall key :: key in filled ==> filled[key] == if key in dropped then dropped[key] else config[key]
    ensures filled == Repaired(config)
  {
    forall key
      ensures key in filled <==> key in Repaired(config)
      ensures key in filled ==> filled[key] == Repaired(config)[key]
    {
      CopyBackKey(config, dropped, filled, key);
    }
    SameMap(filled, Repaired(config));
  }

  method RepairConfig(config: Object) returns (llm: Object)
    ensures llm == Repaired(config)
  {
    var dropped := DropPlaceholders(config);
    llm := CopyBack(config, dropped);
    CopyBackIsRepaired(config, dropped, llm);
  }

  // ----- Expansion -----

  /** The ids of a list that parse, in order. */
  function ParsedIds(items: seq<Value>, services: Services): seq<nat> {
    if items == [] then []
    else
      var rest := ParsedIds(items[1..], services);
      if items[0].Str? && services.parseUuid(items[0].s).Some? then [services.parseUuid(items[0].s).value] + rest
      else rest
  }

  lemma ParsedIdsAppend(left: seq<Value>, item: Value, services: Services)
    ensures ParsedIds(left + [item], services) == ParsedIds(left, services) + ParsedIds([item], services)
  {
    if left == [] {
      assert left + [item] == [item];
    } else {
      assert (left + [item])[1..] == left[1..] + [item];
      ParsedIdsAppend(left[1..], item, services);
    }
  }

  method ParseIds(items: seq<Value>, services: Services) returns (ids: seq<nat>)
    ensures ids == ParsedIds(items, services)
  {
    ids := [];
    for i := 0 to |items|
      invariant ids == ParsedIds(items[..i], services)
    {
      ParsedIdsAppend(items[..i], items[i], services);
      assert items[..i + 1] == items[..i] + [items[i]];
      if items[i].Str? {
        var parsed := services.parseUuid(items[i].s);
        if parsed.Some? {
          ids := ids + [parsed.value];
        }
      }
    }
    assert items[..|items|] == items;
  }

  function ListedIds(config: Object, idsKey: string, services: Services): seq<nat> {
    if HoldsList(config, idsKey) then ParsedIds(config[idsKey].items, services) else []
  }

  /** The tools an expansion would put under `custom_tools`. */
  function ExpandedTools(config: Object, tools: Option<seq<ToolRow>>, services: Services): Option<Value> {
    var ids := ListedIds(config, "custom_tool_ids", services);
    if "custom_tools" in config || ids == [] || tools.None? || Selected(tools.value, ids) == [] then None
    else Some(Obj(map["http_tools" := Arr(Selected(tools.value, ids))]))
  }

  function ExpandedServers(config: Object, servers: seq<nat> -> Option<Value>, services: Services): Option<Value> {
    var ids := ListedIds(config, "custom_mcp_server_ids", services);
    if "custom_mcp_servers" in config || ids == [] then None else servers(ids)
  }

  function With(config: Object, key: string, v: Option<Value>): Object {
    if v.Some? then config[key := v.value] else config
  }

  function Expanded(config: Object, catalog: Catalog, services: Services): Object {
    With(With(config, "custom_tools", ExpandedTools(config, catalog.tools, services)),
         "custom_mcp_servers", ExpandedServers(config, catalog.servers, services))
  }

  /** The config a reader sees: only an object can be expanded. */
  function Hydrated(config: Text, catalog: Catalog, services: Services): Text {
    if config.Document? then Document(Expanded(config.fields, catalog, services)) else config
  }

  // ----- Undoing the expansion -----

  function Dropped(config: Object): Object {
    var tools := if HoldsList(config, "custom_tool_ids") then {"custom_tools"} else {};
    var servers := if HoldsList(config, "custom_mcp_server_ids") then {"custom_mcp_servers"} else {};
    config - tools - servers
  }

  method DropHydratedCopies(config: Object) returns (dropped: Object)
    ensures dropped == Dropped(config)
  {
    dropped := config;
    if HoldsList(dropped, "custom_tool_ids") {
      dropped := dropped - {"custom_tools"};
    }
    if HoldsList(dropped, "custom_mcp_server_ids") {
      dropped := dropped - {"custom_mcp_servers"};
    }
  }

  // ----- Laws -----

  /** Dropping undoes expanding: what an update starts from does not depend on
      what the catalogs answered to the read before it. */
  lemma DropUndoesExpand(config: Object, catalog: Catalog, services: Services)
    ensures Dropped(Expanded(config, catalog, services)) == Dropped(config)
  {
    var expanded := Expanded(config, catalog, services);
    assert HoldsList(expanded, "custom_tool_ids") == HoldsList(config, "custom_tool_ids");
    assert HoldsList(expanded, "custom_mcp_server_ids") == HoldsList(config, "custom_mcp_server_ids");
    SameMap(Dropped(expanded), Dropped(config));
  }

  /** An expansion only adds keys, and only under an id list. */
  lemma ExpandOnlyAdds(config: Object, catalog: Catalog, services: Services)
    ensures forall key :: key in config ==>
      key in Expanded(config, catalog, services) && Expanded(config, catalog, services)[key] == config[key]
    ensures forall key :: key in Expanded(config, catalog, services) && key !in config ==> Expandable(config, key)
  {
  }

  /** A second repair finds nothing to do. */
  lemma SanitizedIsFixpoint(agent: Agent)
    ensures Sanitized(Sanitized(agent)) == Sanitized(agent)
  {
    var name := SanitizedName(agent.name);
    assert SanitizedName(name) == name;
  }

  /** After the repair a flow agent with a config names at least one sub-agent. */
  lemma RepairedFlowHasSubAgents(agent: Agent)
    ensures var repaired := Sanitized(agent);
      IsFlow(repaired.kind) && !repaired.config.Blank? ==> HoldsList(Fields(repaired.config), "sub_agents")
  {
  }

  /** The rewrite keeps every stored non-null key except sub_agents, fills the
      rest with placeholders, and leaves an expansion key backed by an id list
      exactly as it was stored, absent included. */
  lemma RepairKeepsStoredKeys(config: Object)
    ensures forall key :: key in config && !config[key].Null? && key != "sub_agents" ==>
      key in Repaired(config) && Repaired(config)[key] == config[key]
    ensures forall key :: Expandable(config, key) ==>
      (key in Repaired(config) <==> key in config) && (key in config ==> Repaired(config)[key] == config[key])
    ensures "sub_agents" !in Repaired(config)
    ensures forall key ::
      (key in Repaired(config) && (key !in config || config[key].Null?) && !Expandable(config, key)) ==>
        Repaired(config)[key] == if key in REPAIRED_KEYS then Placeholder(key) else Null
  {
  }

  /** A repaired agent expands on read exactly when the stored one did. */
  lemma RepairKeepsExpansion(config: Object, catalog: Catalog, services: Services)
    ensures ExpandedTools(Repaired(config), catalog.tools, services) == ExpandedTools(config, catalog.tools, services)
    ensures ExpandedServers(Repaired(config), catalog.servers, services)
      == ExpandedServers(config, catalog.servers, services)
  {
    assert ListedIds(Repaired(config), "custom_tool_ids", services) == ListedIds(config, "custom_tool_ids", services);
    assert ListedIds(Repaired(config), "custom_mcp_server_ids", services)
        == ListedIds(config, "custom_mcp_server_ids", services);
  }
}
