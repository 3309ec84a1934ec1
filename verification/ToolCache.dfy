/** The tool catalog memoised across one page of agents. The cached tools share
    their error-handling maps with every config built from them, and converting
    a tool writes defaults into that map in place. */
module ToolCache {
  import opened Wrappers
  import opened Json
  import opened AgentModel
  import opened ToolCatalog
  import opened ReadPath

  /** A map a tool and the configs built from it point at. */
  class ErrorMap {
    var entries: Object

    constructor (entries: Object)
      ensures this.entries == entries
    {
      this.entries := entries;
    }
  }

  /** A listed tool: its own columns and the shared error-handling map. */
  datatype ListedTool = ListedTool(row: ToolRow, errors: ErrorMap)

  const PAGE_SIZE: nat := 100

  /** The listing asks for one page of a hundred tools. */
  function FirstPage(rows: Option<seq<ToolRow>>): (page: Option<seq<ToolRow>>)
    ensures page.Some? <==> rows.Some?
    ensures page.Some? ==> page.value <= rows.value && |page.value| <= 100
    ensures page.Some? && |rows.value| > 100 ==> |page.value| == 100
    ensures page.Some? && |rows.value| <= 100 ==> page == rows
  {
    if rows.Some? && |rows.value| > PAGE_SIZE then Some(rows.value[..PAGE_SIZE]) else rows
  }

  ghost function Maps(tools: seq<ListedTool>): set<ErrorMap> {
    set tool | tool in tools :: tool.errors
  }

  /** Tools as listed for these rows, each with a map of its own that holds the
      row's entries, with or without the defaults a conversion adds. */
  ghost predicate Lists(tools: seq<ListedTool>, rows: seq<ToolRow>)
    reads Maps(tools)
  {
    && |tools| == |rows|
    && (forall i, j :: 0 <= i < j < |tools| ==> tools[i].errors != tools[j].errors)
    && (forall i :: 0 <= i < |tools| ==> tools[i].row == rows[i] && tools[i].errors in Maps(tools))
    && (forall i :: 0 <= i < |tools| ==> WithDefaults(tools[i].errors.entries) == WithDefaults(rows[i].errorHandling))
  }

  /** The catalog behind List: what it holds never changes during a read, and
      `calls` counts how often it was asked. */
  class CatalogService {
    const rows: Option<seq<ToolRow>>
    var calls: nat

    constructor (rows: Option<seq<ToolRow>>)
      ensures this.rows == rows && calls == 0
    {
      this.rows, calls := rows, 0;
    }

    method List() returns (tools: Option<seq<ListedTool>>)
      modifies this
      ensures calls == old(calls) + 1
      ensures tools.None? <==> FirstPage(rows).None?
      ensures tools.Some? ==> fresh(Maps(tools.value)) && Lists(tools.value, FirstPage(rows).value)
    {
      calls := calls + 1;
      if rows.None? {
        return None;
      }
      var page := FirstPage(rows).value;
      var listed: seq<ListedTool> := [];
      for k := 0 to |page|
        invariant calls == old(calls) + 1
        invariant fresh(Maps(listed)) && |listed| == k
        invariant forall i, j :: 0 <= i < j < k ==> listed[i].errors != listed[j].errors
        invariant forall i :: 0 <= i < k ==>
          listed[i].errors in Maps(listed) && listed[i].row == page[i]
            && listed[i].errors.entries == page[i].errorHandling
      {
        var errors := new ErrorMap(page[k].errorHandling);
        ghost var before := listed;
        listed := listed + [ListedTool(page[k], errors)];
        assert forall i :: 0 <= i < k ==> listed[i] == before[i];
        assert Maps(listed) == Maps(before) + {errors} by {
          assert listed[k].errors == errors;
          assert forall tool :: tool in listed <==> tool in before || tool == listed[k];
        }
      }
      return Some(listed);
    }
  }

  /** ConvertToHTTPTool: fills the defaults into the tool's own map. The result
      keeps pointing at it. */
  method ConvertToHTTPTool(tool: ListedTool) returns (http: ListedTool)
    modifies tool.errors
    ensures http == tool
    ensures tool.errors.entries == WithDefaults(old(tool.errors.entries))
  {
    var errors := tool.errors;
    if "timeout" !in errors.entries {
      errors.entries := errors.entries["timeout" := Num(30.0)];
    }
    if "retry_count" !in errors.entries {
      errors.entries := errors.entries["retry_count" := Num(0.0)];
    }
    if "fallback_response" !in errors.entries {
      errors.entries := errors.entries["fallback_response" := FALLBACK_RESPONSE];
    }
    http := tool;
  }

  /** The JSON of converted tools, read when the config is serialised. */
  function Encoded(tools: seq<ListedTool>): (items: seq<Value>)
    reads Maps(tools)
    ensures |items| == |tools|
  {
    if tools == [] then []
    else Encoded(tools[..|tools| - 1]) + [HttpTool(tools[|tools| - 1].row, tools[|tools| - 1].errors.entries)]
  }

  /** customToolCache. */
  class Cache {
    var tools: Option<seq<ListedTool>>
    var loaded: bool

    constructor ()
      ensures !loaded
    {
      tools, loaded := None, false;
    }

    ghost function Shared(): set<ErrorMap>
      reads this
    {
      if loaded && tools.Some? then Maps(tools.value) else {}
    }

    ghost predicate Valid(rows: Option<seq<ToolRow>>)
      reads this, Shared()
    {
      loaded ==>
        (tools.None? <==> FirstPage(rows).None?) && (tools.Some? ==> Lists(tools.value, FirstPage(rows).value))
    }
  }

  method ListCustomTools(service: CatalogService, cache: Cache?) returns (tools: Option<seq<ListedTool>>)
    requires cache != null ==> cache.Valid(service.rows)
    modifies service, cache
    ensures tools.None? <==> FirstPage(service.rows).None?
    ensures tools.Some? ==> Lists(tools.value, FirstPage(service.rows).value)
    ensures cache != null ==> cache.Valid(service.rows) && cache.loaded && cache.tools == tools
    ensures cache == null ==> service.calls == old(service.calls) + 1 && (tools.Some? ==> fresh(Maps(tools.value)))
    ensures cache != null ==>
      service.calls == old(service.calls) + (if old(cache.loaded) then 0 else 1)
        && fresh(cache.Shared() - old(cache.Shared()))
  {
    if cache != null && cache.loaded {
      return cache.tools;
    }
    tools := service.List();
    if cache != null {
      cache.tools, cache.loaded := tools, true;
    }
  }

  /** Whether a tool's id is among the wanted ones, scanning as the service does. */
  method Wanted(id: nat, ids: seq<nat>) returns (found: bool)
    ensures found <==> id in ids
  {
    for i := 0 to |ids|
      invariant id !in ids[..i]
    {
      if ids[i] == id {
        return true;
      }
    }
    return false;
  }

  /** Converting one more tool: what was converted before keeps its encoding,
      because no two tools share a map. */
  method ConvertNext(tools: seq<ListedTool>, k: nat, converted: seq<ListedTool>, ghost rows: seq<ToolRow>)
    returns (next: seq<ListedTool>)
    requires Lists(tools, rows) && k < |tools|
    requires tools[k].errors !in Maps(converted)
    modifies tools[k].errors
    ensures Lists(tools, rows)
    ensures next == converted + [tools[k]]
    ensures Encoded(next) == old(Encoded(converted)) + [HttpTool(rows[k], WithDefaults(rows[k].errorHandling))]
  {
    DefaultsIdempotent(tools[k].errors.entries);
    var http := ConvertToHTTPTool(tools[k]);
    next := converted + [http];
    assert next[..|next| - 1] == converted;
  }

  lemma SelectedNext(rows: seq<ToolRow>, k: nat, ids: seq<nat>)
    requires k < |rows|
    ensures Selected(rows[..k + 1], ids) == Selected(rows[..k], ids)
      + if rows[k].id in ids then [HttpTool(rows[k], WithDefaults(rows[k].errorHandling))] else []
  {
    assert rows[..k + 1] == rows[..k] + [rows[k]];
    SelectedAppend(rows[..k], [rows[k]], ids);
  }

  method ConvertWanted(tools: seq<ListedTool>, ids: seq<nat>, ghost rows: seq<ToolRow>)
    returns (converted: seq<ListedTool>)
    requires Lists(tools, rows)
    modifies Maps(tools)
    ensures Lists(tools, rows)
    ensures Encoded(converted) == Selected(rows, ids)
  {
    converted := [];
    for k := 0 to |tools|
      invariant Lists(tools, rows)
      invariant forall i :: k <= i < |tools| ==> tools[i].errors !in Maps(converted)
      invariant Encoded(converted) == Selected(rows[..k], ids)
    {
      SelectedNext(rows, k, ids);
      var wanted := Wanted(tools[k].row.id, ids);
      if wanted {
        converted := ConvertNext(tools, k, converted, rows);
      }
    }
    assert rows[..|tools|] == rows;
  }

  /** The custom-tool half of reconstructCustomConfigurations. */
  method ExpandTools(config: Object, service: CatalogService, cache: Cache?, services: Services)
    returns (expanded: Object)
    requires cache != null ==> cache.Valid(service.rows)
    modifies service, cache, if cache != null then cache.Shared() else {}
    ensures expanded == With(config, "custom_tools", ExpandedTools(config, FirstPage(service.rows), services))
    ensures cache != null ==> cache.Valid(service.rows) && fresh(cache.Shared() - old(cache.Shared()))
    ensures cache != null ==> (old(cache.loaded) ==> cache.loaded)
    ensures cache != null ==>
      service.calls == old(service.calls) + (if cache.loaded && !old(cache.loaded) then 1 else 0)
  {
    expanded := config;
    if !HoldsList(config, "custom_tool_ids") || "custom_tools" in config {
      return;
    }
    var ids := ParseIds(config["custom_tool_ids"].items, services);
    if ids == [] {
      return;
    }
    var tools := ListCustomTools(service, cache);
    if tools.None? {
      return;
    }
    var converted := ConvertWanted(tools.value, ids, FirstPage(service.rows).value);
    if converted != [] {
      expanded := config["custom_tools" := Obj(map["http_tools" := Arr(Encoded(converted))])];
    }
  }

  /** A page expanded with one cache: every config comes out as the catalog alone
      determines, and the catalog is asked at most once. */
  method ExpandPage(configs: seq<Object>, service: CatalogService, services: Services) returns (expanded: seq<Object>)
    modifies service
    ensures |expanded| == |configs|
    ensures forall i :: 0 <= i < |configs| ==>
      expanded[i] == With(configs[i], "custom_tools", ExpandedTools(configs[i], FirstPage(service.rows), services))
    ensures service.calls <= old(service.calls) + 1
  {
    var cache := new Cache();
    expanded := [];
    for k := 0 to |configs|
      invariant fresh(cache) && fresh(cache.Shared()) && cache.Valid(service.rows)
      invariant |expanded| == k
      invariant forall i :: 0 <= i < k ==>
        expanded[i] == With(configs[i], "custom_tools", ExpandedTools(configs[i], FirstPage(service.rows), services))
      invariant service.calls == old(service.calls) + if cache.loaded then 1 else 0
    {
      var one := ExpandTools(configs[k], service, cache, services);
      expanded := expanded + [one];
    }
  }

  /** The same page with no cache, one listing per agent: the same configs. */
  method ExpandEach(configs: seq<Object>, service: CatalogService, services: Services) returns (expanded: seq<Object>)
    modifies service
    ensures |expanded| == |configs|
    ensures forall i :: 0 <= i < |configs| ==>
      expanded[i] == With(configs[i], "custom_tools", ExpandedTools(configs[i], FirstPage(service.rows), services))
  {
    expanded := [];
    for k := 0 to |configs|
      invariant |expanded| == k
      invariant forall i :: 0 <= i < k ==>
        expanded[i] == With(configs[i], "custom_tools", ExpandedTools(configs[i], FirstPage(service.rows), services))
    {
      var one := ExpandTools(configs[k], service, null, services);
      expanded := expanded + [one];
    }
  }
}
