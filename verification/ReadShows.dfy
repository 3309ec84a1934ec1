/** What a read shows, in the table's own terms: the row it leaves behind, and the
    tools and servers the reply holds beside that row. Nothing here is said through
    the functions that compute the repair or the expansion. */
module ReadShows {
  import opened Wrappers
  import opened Json
  import opened AgentModel
  import opened Positions
  import opened ConfigProcessor
  import opened ToolCatalog
  import opened ReadPath
  import opened AgentTables
  import opened AgentService
  import opened AgentRuns
  import opened ServiceMerge

  // ----- Ids -----

  predicate IsId(v: Value, services: Services) {
    v.Str? && services.parseUuid(v.s).Some?
  }

  ghost function IdPlaces(items: seq<Value>, services: Services): set<nat> {
    set i: nat | i < |items| && IsId(items[i], services)
  }

  ghost predicate ReadAt(items: seq<Value>, ids: seq<nat>, services: Services, at: seq<nat>) {
    && InOrder(at, IdPlaces(items, services)) && |ids| == |at|
    && forall k :: 0 <= k < |ids| ==>
         at[k] < |items| && items[at[k]].Str? && services.parseUuid(items[at[k]].s) == Some(ids[k])
  }

  /** The ids a list names: its texts that parse, in the order of the list. */
  ghost predicate Names(items: seq<Value>, ids: seq<nat>, services: Services) {
    exists at :: ReadAt(items, ids, services, at)
  }

  lemma PlacesGrow(items: seq<Value>, services: Services, before: seq<nat>) returns (at: seq<nat>)
    requires items != [] && IsId(items[|items| - 1], services)
    requires InOrder(before, IdPlaces(items[..|items| - 1], services))
    ensures at == before + [|items| - 1] && InOrder(at, IdPlaces(items, services))
  {
    var n: nat := |items| - 1;
    at := before + [n];
    LastAdded(before, IdPlaces(items[..n], services), n);
    assert IdPlaces(items, services) == IdPlaces(items[..n], services) + {n};
  }

  lemma {:induction false} ParsedAreNamed(items: seq<Value>, services: Services) returns (at: seq<nat>)
    ensures ReadAt(items, ParsedIds(items, services), services, at)
  {
    if items == [] {
      at := [];
    } else {
      var n := |items| - 1;
      assert items == items[..n] + [items[n]];
      ParsedIdsAppend(items[..n], items[n], services);
      at := ParsedAreNamed(items[..n], services);
      assert forall k :: 0 <= k < |at| ==> items[..n][at[k]] == items[at[k]];
      if IsId(items[n], services) {
        assert ParsedIds([items[n]], services) == [services.parseUuid(items[n].s).value];
        at := PlacesGrow(items, services, at);
      } else {
        assert ParsedIds([items[n]], services) == [];
        assert IdPlaces(items, services) == IdPlaces(items[..n], services);
      }
    }
  }

  /** A list names one sequence of ids, and it is the parsed one. */
  lemma NamedAreParsed(items: seq<Value>, ids: seq<nat>, services: Services)
    ensures Names(items, ids, services) <==> ids == ParsedIds(items, services)
  {
    var at := ParsedAreNamed(items, services);
    if Names(items, ids, services) {
      var other :| ReadAt(items, ids, services, other);
      InOrderOnce(at, other, IdPlaces(items, services));
      assert forall k :: 0 <= k < |ids| ==> Some(ids[k]) == Some(ParsedIds(items, services)[k]);
      assert ids == ParsedIds(items, services);
    }
  }

  // ----- Tools -----

  /** The error handling with its three defaults, each where the row has none. */
  ghost predicate IsErrorHandling(row: Object, shown: Object) {
    && shown.Keys == row.Keys + {"timeout", "retry_count", "fallback_response"}
    && (forall key :: key in row ==> shown[key] == row[key])
    && ("timeout" !in row ==> shown["timeout"] == Num(30.0))
    && ("retry_count" !in row ==> shown["retry_count"] == Num(0.0))
    && ("fallback_response" !in row ==>
          shown["fallback_response"] == Obj(map["error" := Str(""), "message" := Str("")]))
  }

  ghost predicate IsParameters(tool: ToolRow, v: Value) {
    && v.Obj? && v.fields.Keys == {"path_params", "query_params", "body_params"}
    && v.fields["path_params"] == tool.pathParams
    && v.fields["query_params"] == tool.queryParams
    && v.fields["body_params"] == tool.bodyParams
  }

  /** The tool as a config embeds it: the eight keys and what each holds. */
  ghost predicate IsHttpTool(tool: ToolRow, v: Value) {
    && v.Obj?
    && v.fields.Keys == {"name", "method", "endpoint", "headers", "parameters", "description", "error_handling",
                         "values"}
    && v.fields["name"] == Str(tool.name) && v.fields["method"] == Str(tool.verb)
    && v.fields["endpoint"] == Str(tool.endpoint) && v.fields["headers"] == tool.headers
    && IsParameters(tool, v.fields["parameters"])
    && v.fields["description"] == Str(tool.description)
    && v.fields["error_handling"].Obj? && IsErrorHandling(tool.errorHandling, v.fields["error_handling"].fields)
    && v.fields["values"] == tool.values
  }

  lemma DefaultsAre(row: Object)
    ensures IsErrorHandling(row, WithDefaults(row))
  {
  }

  lemma ToolIs(tool: ToolRow, errorHandling: Object)
    requires IsErrorHandling(tool.errorHandling, errorHandling)
    ensures IsHttpTool(tool, HttpTool(tool, errorHandling))
  {
    var shown := HttpTool(tool, errorHandling).fields;
    assert IsParameters(tool, shown["parameters"]);
    assert shown.Keys == {"name", "method", "endpoint", "headers", "parameters", "description", "error_handling",
                          "values"};
  }

  lemma HttpToolIs(tool: ToolRow)
    ensures IsHttpTool(tool, HttpTool(tool, WithDefaults(tool.errorHandling)))
  {
    DefaultsAre(tool.errorHandling);
    ToolIs(tool, WithDefaults(tool.errorHandling));
  }

  ghost function ToolPlaces(tools: seq<ToolRow>, ids: seq<nat>): set<nat> {
    set i: nat | i < |tools| && tools[i].id in ids
  }

  ghost predicate ShownAt(tools: seq<ToolRow>, ids: seq<nat>, values: seq<Value>, at: seq<nat>) {
    && InOrder(at, ToolPlaces(tools, ids)) && |values| == |at|
    && forall k :: 0 <= k < |values| ==> at[k] < |tools| && IsHttpTool(tools[at[k]], values[k])
  }

  /** The tools of a page whose id is named, in the order of the page. */
  ghost predicate PicksTools(tools: seq<ToolRow>, ids: seq<nat>, values: seq<Value>) {
    exists at :: ShownAt(tools, ids, values, at)
  }

  lemma PickStays(tools: seq<ToolRow>, ids: seq<nat>, values: seq<Value>, at: seq<nat>)
    requires tools != [] && tools[|tools| - 1].id !in ids
    requires ShownAt(tools[..|tools| - 1], ids, values, at)
    ensures ShownAt(tools, ids, values, at)
  {
    assert ToolPlaces(tools, ids) == ToolPlaces(tools[..|tools| - 1], ids);
  }

  lemma PickGrows(tools: seq<ToolRow>, ids: seq<nat>, values: seq<Value>, at: seq<nat>, v: Value)
    requires tools != [] && tools[|tools| - 1].id in ids && IsHttpTool(tools[|tools| - 1], v)
    requires ShownAt(tools[..|tools| - 1], ids, values, at)
    ensures ShownAt(tools, ids, values + [v], at + [|tools| - 1])
  {
    var n: nat := |tools| - 1;
    LastAdded(at, ToolPlaces(tools[..n], ids), n);
    assert ToolPlaces(tools, ids) == ToolPlaces(tools[..n], ids) + {n};
    forall k | 0 <= k < |at| ensures IsHttpTool(tools[at[k]], values[k]) {
      assert tools[..n][at[k]] == tools[at[k]];
    }
  }

  lemma {:induction false} SelectedArePicked(tools: seq<ToolRow>, ids: seq<nat>) returns (at: seq<nat>)
    ensures ShownAt(tools, ids, Selected(tools, ids), at)
  {
    if tools == [] {
      at := [];
    } else {
      var n: nat := |tools| - 1;
      assert tools == tools[..n] + [tools[n]];
      SelectedAppend(tools[..n], [tools[n]], ids);
      at := SelectedArePicked(tools[..n], ids);
      if tools[n].id in ids {
        var v := HttpTool(tools[n], WithDefaults(tools[n].errorHandling));
        HttpToolIs(tools[n]);
        assert Selected([tools[n]], ids) == [v];
        PickGrows(tools, ids, Selected(tools[..n], ids), at, v);
        at := at + [n];
      } else {
        assert Selected([tools[n]], ids) == [];
        PickStays(tools, ids, Selected(tools[..n], ids), at);
      }
    }
  }

  // ----- What a reply shows beside the stored row -----

  /** The items of a list column; anything else lists nothing. */
  function ItemsOf(o: Object, key: string): seq<Value> {
    if key in o && o[key].Arr? then o[key].items else []
  }

  predicate SameAt(a: Object, b: Object, key: string) {
    (key in a <==> key in b) && (key in a ==> a[key] == b[key])
  }

  /** The servers of a reply: what the catalog answers for exactly the named ids,
      when there are any and the row has no servers of its own. */
  ghost predicate ShowsServers(stored: Object, shown: Object, catalog: Catalog, services: Services) {
    forall ids :: Names(ItemsOf(stored, "custom_mcp_server_ids"), ids, services) ==>
      if "custom_mcp_servers" !in stored && ids != [] && catalog.servers(ids).Some?
      then "custom_mcp_servers" in shown && shown["custom_mcp_servers"] == catalog.servers(ids).value
      else SameAt(stored, shown, "custom_mcp_servers")
  }

  ghost predicate HoldsTools(shown: Object, tools: seq<ToolRow>, ids: seq<nat>) {
    && "custom_tools" in shown && shown["custom_tools"].Obj? && shown["custom_tools"].fields.Keys == {"http_tools"}
    && shown["custom_tools"].fields["http_tools"].Arr?
    && PicksTools(tools, ids, shown["custom_tools"].fields["http_tools"].items)
  }

  /** The tools of a reply: those of the page whose id is named, when the listing
      works, there are any and the row has no tools of its own. */
  ghost predicate ShowsTools(stored: Object, shown: Object, catalog: Catalog, services: Services) {
    forall ids :: Names(ItemsOf(stored, "custom_tool_ids"), ids, services) ==>
      if "custom_tools" !in stored && catalog.tools.Some?
        && (exists tool :: tool in catalog.tools.value && tool.id in ids)
      then HoldsTools(shown, catalog.tools.value, ids)
      else SameAt(stored, shown, "custom_tools")
  }

  /** A reply is its row, save for the two keys an object config may gain. */
  ghost predicate Shows(stored: Agent, shown: Agent, catalog: Catalog, services: Services) {
    && shown == stored.(config := shown.config)
    && (!stored.config.Document? ==> shown.config == stored.config)
    && (stored.config.Document? ==>
          && shown.config.Document?
          && ShowsServers(stored.config.fields, shown.config.fields, catalog, services)
          && ShowsTools(stored.config.fields, shown.config.fields, catalog, services)
          && forall key :: key != "custom_tools" && key != "custom_mcp_servers" ==>
               SameAt(stored.config.fields, shown.config.fields, key))
  }

  lemma ListedAreNamed(config: Object, key: string, services: Services)
    ensures forall ids :: Names(ItemsOf(config, key), ids, services) <==> ids == ListedIds(config, key, services)
  {
    forall ids ensures Names(ItemsOf(config, key), ids, services) <==> ids == ListedIds(config, key, services) {
      NamedAreParsed(ItemsOf(config, key), ids, services);
    }
  }

  lemma ExpandedShowsServers(stored: Object, catalog: Catalog, services: Services)
    ensures ShowsServers(stored, Expanded(stored, catalog, services), catalog, services)
  {
    ListedAreNamed(stored, "custom_mcp_server_ids", services);
  }

  /** A page shows no tool exactly when none of its ids is named. */
  lemma NoneSelected(tools: seq<ToolRow>, ids: seq<nat>)
    ensures Selected(tools, ids) != [] <==> exists tool :: tool in tools && tool.id in ids
    ensures PicksTools(tools, ids, Selected(tools, ids))
  {
    var at := SelectedArePicked(tools, ids);
    if Selected(tools, ids) == [] {
      forall tool | tool in tools ensures tool.id !in ids {
        var i: nat :| i < |tools| && tools[i] == tool;
        assert i !in at && i !in ToolPlaces(tools, ids);
      }
    } else {
      assert at[0] in ToolPlaces(tools, ids);
      assert tools[at[0]] in tools;
    }
  }

  lemma ExpandedToolsAre(stored: Object, catalog: Catalog, services: Services)
    ensures var ids, shown := ListedIds(stored, "custom_tool_ids", services), Expanded(stored, catalog, services);
      if "custom_tools" !in stored && catalog.tools.Some?
        && (exists tool :: tool in catalog.tools.value && tool.id in ids)
      then HoldsTools(shown, catalog.tools.value, ids)
      else SameAt(stored, shown, "custom_tools")
  {
    if catalog.tools.Some? {
      NoneSelected(catalog.tools.value, ListedIds(stored, "custom_tool_ids", services));
    }
  }

  lemma ExpandedShowsTools(stored: Object, catalog: Catalog, services: Services)
    ensures ShowsTools(stored, Expanded(stored, catalog, services), catalog, services)
  {
    ListedAreNamed(stored, "custom_tool_ids", services);
    ExpandedToolsAre(stored, catalog, services);
  }

  lemma HydratedShows(stored: Agent, catalog: Catalog, services: Services)
    ensures Shows(stored, stored.(config := Hydrated(stored.config, catalog, services)), catalog, services)
  {
    if stored.config.Document? {
      ExpandedShowsServers(stored.config.fields, catalog, services);
      ExpandedShowsTools(stored.config.fields, catalog, services);
    }
  }

  // ----- What the read leaves in the row -----

  predicate IsWordChar(c: char) {
    c == '_' || ('0' <= c && c <= '9') || ('A' <= c && c <= 'Z') || ('a' <= c && c <= 'z')
  }

  /** Every character outside the word characters is an underscore. */
  ghost predicate IsCleaned(name: string, cleaned: string) {
    && |cleaned| == |name|
    && forall i :: 0 <= i < |name| ==>
         (IsWordChar(name[i]) ==> cleaned[i] == name[i]) && (!IsWordChar(name[i]) ==> cleaned[i] == '_')
  }

  /** The stored value, or the default where there is none. */
  ghost predicate FilledAt(before: Object, after: Object, key: string, default: Value) {
    && key in after
    && after[key] == if key in before && before[key] != Null then before[key] else default
  }

  /** A list a flow config leaves out is left out while ids are there to expand. */
  ghost predicate ExpansionAt(before: Object, after: Object, key: string, idsKey: string) {
    if ItemsOf(before, idsKey) != [] then SameAt(before, after, key) else FilledAt(before, after, key, Arr([]))
  }

  /** A flow config made an LLM one: no sub-agents, the rest as it was, defaults
      for what an LLM agent needs. */
  ghost predicate IsRebuilt(before: Object, after: Object) {
    && "sub_agents" !in after
    && FilledAt(before, after, "api_key", Str(""))
    && FilledAt(before, after, "temperature", Num(0.7)) && FilledAt(before, after, "max_tokens", Num(1000.0))
    && FilledAt(before, after, "tools", Arr([])) && FilledAt(before, after, "mcp_servers", Arr([]))
    && ExpansionAt(before, after, "custom_tools", "custom_tool_ids")
    && ExpansionAt(before, after, "custom_mcp_servers", "custom_mcp_server_ids")
    && (forall key ::
          (key !in {"sub_agents", "api_key", "temperature", "max_tokens", "tools", "mcp_servers", "custom_tools",
                    "custom_mcp_servers"}) ==> SameAt(before, after, key))
  }

  /** The object a text column holds, if it holds one. */
  function FieldsOf(config: Text): Object {
    match config
    case Document(fields) => fields
    case _ => map[]
  }

  /** A flow agent with a config that names no sub-agent. */
  predicate LacksSubAgents(agent: Agent) {
    && agent.kind in {Sequential, Parallel, Loop} && agent.config != Blank
    && ItemsOf(FieldsOf(agent.config), "sub_agents") == []
  }

  /** A row and what reading leaves of it: a cleaned name, and an LLM agent in the
      place of a flow with nothing to run. */
  ghost predicate Leaves(before: Agent, after: Agent) {
    && IsCleaned(before.name, after.name)
    && if LacksSubAgents(before) then
         && after.config.Document? && IsRebuilt(FieldsOf(before.config), after.config.fields)
         && after == before.(name := after.name, kind := LLM, config := after.config,
              model := if before.model != "" then before.model else "openai/gpt-5.6-luna")
       else after == before.(name := after.name)
  }

  lemma RepairFills(before: Object, key: string)
    requires key in REPAIRED_KEYS && IdsKey(key).None?
    ensures FilledAt(before, Repaired(before), key, Placeholder(key))
  {
  }

  lemma RepairExpands(before: Object, key: string)
    requires IdsKey(key).Some?
    ensures ExpansionAt(before, Repaired(before), key, IdsKey(key).value)
  {
  }

  lemma RepairKeeps(before: Object, key: string)
    requires key !in REPAIRED_KEYS && key != "sub_agents"
    ensures SameAt(before, Repaired(before), key)
  {
  }

  lemma RepairedIsRebuilt(before: Object)
    ensures IsRebuilt(before, Repaired(before))
  {
    RepairFills(before, "api_key");
    RepairFills(before, "temperature");
    RepairFills(before, "max_tokens");
    RepairFills(before, "tools");
    RepairFills(before, "mcp_servers");
    RepairExpands(before, "custom_tools");
    RepairExpands(before, "custom_mcp_servers");
    forall key | key !in REPAIRED_KEYS && key != "sub_agents" ensures SameAt(before, Repaired(before), key) {
      RepairKeeps(before, key);
    }
  }

  lemma SanitizedLeaves(agent: Agent)
    ensures Leaves(agent, Sanitized(agent))
  {
    RepairedIsRebuilt(FieldsOf(agent.config));
    assert LacksSubAgents(agent) == NeedsRepair(agent);
  }

  // ----- Reads -----

  /** A read that answers leaves the cleaned and repaired row, touches nothing else
      in the tables, and shows that row with its tools and servers. */
  lemma GotShows(s: Store, id: nat, env: Env, catalog: Catalog)
    requires Got(s, id, env, catalog).1.Some?
    ensures var (t, shown) := Got(s, id, env, catalog);
      && id in s.agents && id in t.agents && t == s.(agents := s.agents[id := t.agents[id]])
      && Leaves(s.agents[id], t.agents[id])
      && Shows(t.agents[id], shown.value, catalog, env.services)
  {
    var base := Sanitized(s.agents[id]);
    GotIs(s, id, env, catalog);
    RepairSurvivesPartialWrite(s.agents[id]);
    SanitizedLeaves(s.agents[id]);
    HydratedShows(base, catalog, env.services);
  }

  /** What a row lists, the row a read leaves lists too, and has no expansion of its
      own either. */
  lemma NamesAreLeft(before: Agent, after: Agent, key: string, idsKey: string, ids: seq<nat>, services: Services)
    requires (key, idsKey) in {("custom_tools", "custom_tool_ids"), ("custom_mcp_servers", "custom_mcp_server_ids")}
    requires before.config.Document? && key !in before.config.fields && Leaves(before, after)
    requires Names(ItemsOf(before.config.fields, idsKey), ids, services) && ids != []
    ensures after.config.Document? && key !in after.config.fields
    ensures Names(ItemsOf(after.config.fields, idsKey), ids, services)
  {
    var items := ItemsOf(before.config.fields, idsKey);
    var at :| ReadAt(items, ids, services, at);
    assert at[0] < |items|;
    assert SameAt(before.config.fields, after.config.fields, idsKey);
    assert SameAt(before.config.fields, after.config.fields, key);
  }

  /** Over the row as it was: servers the row does not hold are those the catalog
      answers for its ids. */
  lemma ReadShowsServers(s: Store, id: nat, env: Env, catalog: Catalog, ids: seq<nat>)
    requires id in s.agents && Got(s, id, env, catalog).1.Some?
    requires s.agents[id].config.Document? && "custom_mcp_servers" !in s.agents[id].config.fields
    requires Names(ItemsOf(s.agents[id].config.fields, "custom_mcp_server_ids"), ids, env.services) && ids != []
    ensures var shown := Got(s, id, env, catalog).1.value;
      && shown.config.Document?
      && if catalog.servers(ids).Some?
         then Lookup(shown.config.fields, "custom_mcp_servers") == catalog.servers(ids)
         else "custom_mcp_servers" !in shown.config.fields
  {
    GotShows(s, id, env, catalog);
    NamesAreLeft(s.agents[id], Got(s, id, env, catalog).0.agents[id], "custom_mcp_servers",
      "custom_mcp_server_ids", ids,
      env.services);
  }

  lemma ReadShowsTools(s: Store, id: nat, env: Env, catalog: Catalog, ids: seq<nat>, tool: ToolRow)
    requires id in s.agents && Got(s, id, env, catalog).1.Some?
    requires s.agents[id].config.Document? && "custom_tools" !in s.agents[id].config.fields
    requires Names(ItemsOf(s.agents[id].config.fields, "custom_tool_ids"), ids, env.services)
    requires catalog.tools.Some? && tool in catalog.tools.value && tool.id in ids
    ensures var shown := Got(s, id, env, catalog).1.value;
      shown.config.Document? && HoldsTools(shown.config.fields, catalog.tools.value, ids)
  {
    GotShows(s, id, env, catalog);
    NamesAreLeft(s.agents[id], Got(s, id, env, catalog).0.agents[id], "custom_tools", "custom_tool_ids", ids,
      env.services);
  }

  /** One item of a page: the row as its repair leaves it, with its tools and
      servers unless that repair could not be written. */
  ghost predicate ShownOnPage(loaded: Agent, shown: Agent, repair: WriteFault, catalog: Catalog, services: Services) {
    exists left :: Leaves(loaded, left)
      && if left == loaded || repair == Done then Shows(left, shown, catalog, services) else shown == left
  }

  lemma PreparedShows(s: Store, id: nat, loaded: Agent, env: Env, catalog: Catalog, item: Agent)
    requires AsLoaded(s, id, loaded)
    requires item == match Prepared(s, id, loaded, env, catalog).1 { case Some(a) => a case None => Sanitized(loaded) }
    ensures ShownOnPage(loaded, item, env.repair, catalog, env.services)
  {
    var left := Sanitized(loaded);
    SanitizedLeaves(loaded);
    PatchedByRepair(s.agents[id], loaded);
    HydratedShows(left, catalog, env.services);
  }

  lemma LastShows(s: Store, page: seq<(nat, Agent)>, envs: nat -> Env, catalog: Catalog)
    requires PageAsLoaded(s, page) && page != []
    ensures var n := |page| - 1;
      var (t, before) := Listed(s, page[..n], envs, catalog);
      var items := Listed(s, page, envs, catalog).1;
      && |items| == |before| + 1 && items[..|before|] == before
      && ShownOnPage(page[n].1, items[|before|], envs(n).repair, catalog, envs(n).services)
  {
    var n := |page| - 1;
    ListedRunnable(s, page, n, envs, catalog);
    var (t, before) := Listed(s, page[..n], envs, catalog);
    PreparedShows(t, page[n].0, page[n].1, envs(n), catalog, Listed(s, page, envs, catalog).1[|before|]);
  }

  lemma {:induction false} ListedShows(s: Store, page: seq<(nat, Agent)>, envs: nat -> Env, catalog: Catalog)
    requires PageAsLoaded(s, page)
    ensures var items := Listed(s, page, envs, catalog).1;
      && |items| == |page|
      && forall i :: 0 <= i < |page| ==> ShownOnPage(page[i].1, items[i], envs(i).repair, catalog, envs(i).services)
  {
    if page != [] {
      var n := |page| - 1;
      var items, before := Listed(s, page, envs, catalog).1, Listed(s, page[..n], envs, catalog).1;
      ListedShows(s, page[..n], envs, catalog);
      LastShows(s, page, envs, catalog);
      forall i | 0 <= i < n
        ensures ShownOnPage(page[i].1, items[i], envs(i).repair, catalog, envs(i).services)
      {
        assert items[i] == before[i] && page[i] == page[..n][i];
      }
    }
  }

  lemma {:induction false} PageIsSelection(agents: map<nat, Agent>, ids: seq<nat>)
    requires forall i :: 0 <= i < |ids| ==> ids[i] in agents
    ensures |PageOf(agents, ids)| == |ids|
    ensures forall i :: 0 <= i < |ids| ==> PageOf(agents, ids)[i] == (ids[i], agents[ids[i]])
  {
    if ids != [] {
      PageIsSelection(agents, ids[1..]);
    }
  }

  /** A page is there when both queries work, and shows the rows selected, in
      that order. */
  lemma PageShows(s: Store, query: map<nat, Agent> -> seq<nat>, queries: PageReads, envs: nat -> Env, catalog: Catalog)
    requires forall i :: 0 <= i < |query(s.agents)| ==> query(s.agents)[i] in s.agents
    ensures var items := Paged(s, query, queries, envs, catalog).1;
      var ids := query(s.agents);
      && (items.Some? <==> queries.rows && queries.count)
      && (items.Some? ==> |items.value| == |ids| && forall i :: 0 <= i < |ids| ==>
            ShownOnPage(s.agents[ids[i]], items.value[i], envs(i).repair, catalog, envs(i).services))
  {
    var page := PageOf(s.agents, query(s.agents));
    PageIsSelection(s.agents, query(s.agents));
    ListedShows(s, page, envs, catalog);
  }
}
