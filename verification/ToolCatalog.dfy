/** Custom tools as the catalog lists them, and their form inside an agent's
    config. */
module ToolCatalog {
  import opened Wrappers
  import opened Json

  datatype ToolRow = ToolRow(
    id: nat, name: string, verb: string, endpoint: string, headers: Value,
    pathParams: Value, queryParams: Value, bodyParams: Value,
    description: string, errorHandling: Object, values: Value)

  const FALLBACK_RESPONSE: Value := Obj(map["error" := Str(""), "message" := Str("")])

  function WithDefault(o: Object, key: string, v: Value): Object {
    if key in o then o else o[key := v]
  }

  /** The three error-handling entries ConvertToHTTPTool fills in when absent. */
  function WithDefaults(errorHandling: Object): Object {
    WithDefault(WithDefault(WithDefault(errorHandling, "timeout", Num(30.0)),
                            "retry_count", Num(0.0)), "fallback_response", FALLBACK_RESPONSE)
  }

  lemma DefaultsIdempotent(errorHandling: Object)
    ensures WithDefaults(WithDefaults(errorHandling)) == WithDefaults(errorHandling)
  {
  }

  /** The tool as embedded in a config, with the given error handling. */
  function HttpTool(tool: ToolRow, errorHandling: Object): Value {
    Obj(map[
      "name" := Str(tool.name), "method" := Str(tool.verb), "endpoint" := Str(tool.endpoint),
      "headers" := tool.headers,
      "parameters" := Obj(map["path_params" := tool.pathParams, "query_params" := tool.queryParams,
                              "body_params" := tool.bodyParams]),
      "description" := Str(tool.description), "error_handling" := Obj(errorHandling),
      "values" := tool.values])
  }

  /** The tools with a wanted id, in catalog order, each at most once. */
  function Selected(tools: seq<ToolRow>, ids: seq<nat>): (selected: seq<Value>)
    ensures |selected| <= |tools|
  {
    if tools == [] then []
    else if tools[0].id in ids
      then [HttpTool(tools[0], WithDefaults(tools[0].errorHandling))] + Selected(tools[1..], ids)
    else Selected(tools[1..], ids)
  }

  lemma SelectedAppend(left: seq<ToolRow>, right: seq<ToolRow>, ids: seq<nat>)
    ensures Selected(left + right, ids) == Selected(left, ids) + Selected(right, ids)
  {
    if left == [] {
      assert left + right == right;
    } else {
      assert (left + right)[1..] == left[1..] + right;
      SelectedAppend(left[1..], right, ids);
    }
  }

  /** What the two catalogs answer to one read: the first page of custom tools
      or a failed listing, and a lookup of custom MCP servers that may fail. */
  datatype Catalog = Catalog(tools: Option<seq<ToolRow>>, servers: seq<nat> -> Option<Value>)
}
