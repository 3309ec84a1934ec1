/** Processing of an agent's config on create and update: the checks, the
    normalisation of tools, servers and ids, and the merge over the stored
    config. The functions state the outcome key by key; the methods compute it
    the way the service does, step by step over mutable maps. */
module ConfigProcessor {
  import opened Wrappers
  import opened Json
  import opened AgentModel

  const OAUTH_SERVERS: set<string> := {
    "github", "notion", "stripe", "linear", "paypal", "hubspot", "monday",
    "atlassian", "asana", "canva", "supabase", "google_calendar"}

  const PROVIDERS: seq<string> := ["flowise", "n8n", "typebot", "dify", "openai"]

  const SCHEMA_TYPES: set<string> := {
    "string", "number", "integer", "boolean", "array", "object"}

  const COMMON_FIELDS: seq<string> := [
    "output_key", "enable_exit_loop", "load_memory", "preload_memory",
    "load_knowledge", "knowledge_tags", "planner", "output_schema",
    "agents_exit_loop", "tools", "custom_tools", "agent_tools", "sub_agents",
    "message_wait_time", "message_signature", "enable_text_segmentation",
    "max_characters_per_segment", "min_segment_size", "character_delay_ms",
    "transfer_to_human", "use_emojis", "allow_reminders", "allow_contact_edit",
    "contact_edit_config", "timezone", "send_as_reply", "inactivity_actions",
    "transfer_rules", "pipeline_rules", "external_sharing"]

  datatype ConfigError =
    | PreloadNeedsLoad | BadSchema | BadServers | BadTools
    | ProviderRequired | ProviderUnsupported

  // ----- What the stored config will hold -----

  /** The value the persisted config ends up with before normalisation: the
      request's when sent, the stored one otherwise. */
  function Effective(request: Object, existing: Option<Object>, key: string): Value {
    if key in request then request[key]
    else if existing.Some? then Get(existing.value, key)
    else Null
  }

  function ChosenKey(request: Object, existing: Option<Object>, generated: string): (key: string)
    ensures generated != "" ==> key != ""
  {
    if HoldsText(request, "api_key") then request["api_key"].s
    else if existing.Some? && HoldsText(existing.value, "api_key") then existing.value["api_key"].s
    else generated
  }

  predicate ValidSchemaField(field: Value) {
    field.Obj? && "type" in field.fields
    && field.fields["type"].Str? && field.fields["type"].s in SCHEMA_TYPES
  }

  predicate ValidSchema(schema: Value) {
    schema.Obj? && forall name :: name in schema.fields ==> ValidSchemaField(schema.fields[name])
  }

  function NormalTool(tool: Object): Object {
    map["id" := Get(tool, "id"), "name" := Get(tool, "name"),
        "description" := Get(tool, "description"), "tags" := Get(tool, "tags"),
        "examples" := Get(tool, "examples"), "inputModes" := Get(tool, "inputModes"),
        "outputModes" := Get(tool, "outputModes"), "config" := Get(tool, "config")]
  }

  predicate ValidTools(v: Value) {
    v.Arr? && forall i :: 0 <= i < |v.items| ==> v.items[i].Obj?
  }

  function NormalTools(v: Value): Value
    requires ValidTools(v)
  {
    Arr(seq(|v.items|, i requires 0 <= i < |v.items| => Obj(NormalTool(v.items[i].fields))))
  }

  /** A required variable is provided inline or by a vault reference. */
  predicate EnvProvided(required: set<string>, environments: Object, refs: Object) {
    forall name :: name in required ==> name in environments || name in refs
  }

  function CredentialRefs(server: Object): Object {
    if Get(server, "credential_refs").Obj? then Get(server, "credential_refs").fields else map[]
  }

  predicate ValidServer(v: Value, services: Services) {
    && v.Obj?
    && Get(v.fields, "id").Str?
    && Get(v.fields, "environments").Obj?
    && (v.fields["id"].s in OAUTH_SERVERS ||
        (&& services.parseUuid(v.fields["id"].s).Some?
         && services.requiredEnv(services.parseUuid(v.fields["id"].s).value).Some?
         && EnvProvided(services.requiredEnv(services.parseUuid(v.fields["id"].s).value).value,
                        Get(v.fields, "environments").fields, CredentialRefs(v.fields))))
  }

  function NormalServer(server: Object): Object {
    var base := map["id" := Get(server, "id"), "environments" := Get(server, "environments"),
                    "tools" := Get(server, "tools")];
    if Get(server, "id").Str? && server["id"].s in OAUTH_SERVERS then base
    else if CredentialRefs(server) == map[] then base
    else base["credential_refs" := Obj(CredentialRefs(server))]
  }

  predicate ValidServers(v: Value, services: Services) {
    v.Arr? && forall i :: 0 <= i < |v.items| ==> ValidServer(v.items[i], services)
  }

  function NormalServers(v: Value): Value
    requires v.Arr? && forall i :: 0 <= i < |v.items| ==> v.items[i].Obj?
  {
    Arr(seq(|v.items|, i requires 0 <= i < |v.items| => Obj(NormalServer(v.items[i].fields))))
  }

  function IdText(v: Value, services: Services): string {
    if v.Str? then v.s else services.format(v)
  }

  function NormalIds(v: Value, services: Services): Value
    requires v.Arr?
  {
    Arr(seq(|v.items|, i requires 0 <= i < |v.items| => Str(IdText(v.items[i], services))))
  }

  function ProviderError(provider: Value): Option<ConfigError> {
    if !provider.Str? || provider.s == "" then Some(ProviderRequired)
    else if provider.s !in PROVIDERS then Some(ProviderUnsupported)
    else None
  }

  function EffectiveRejection(request: Object, existing: Option<Object>): Option<ConfigError> {
    if Effective(request, existing, "preload_memory") == Bool(true)
       && Effective(request, existing, "load_memory") != Bool(true) then Some(PreloadNeedsLoad)
    else if !Get(request, "output_schema").Null? && !ValidSchema(request["output_schema"]) then Some(BadSchema)
    else None
  }

  function RequestRejection(request: Object, services: Services): Option<ConfigError> {
    if !Get(request, "mcp_servers").Null? && !ValidServers(request["mcp_servers"], services) then Some(BadServers)
    else if !Get(request, "tools").Null? && !ValidTools(request["tools"]) then Some(BadTools)
    else None
  }

  /** The first check that fails, in the order the service runs them. */
  function Rejection(kind: Kind, request: Object, existing: Option<Object>, services: Services): Option<ConfigError> {
    var early := EffectiveRejection(request, existing);
    var sent := RequestRejection(request, services);
    if early.Some? then early
    else if sent.Some? then sent
    else if kind.External? then ProviderError(Effective(request, existing, "provider"))
    else None
  }

  /** What a key sent by an accepted request is stored as. */
  function Normalized(key: string, v: Value, services: Services): Value {
    if key == "custom_tool_ids" && v.Arr? then NormalIds(v, services)
    else if key == "mcp_servers" && ValidServers(v, services) then NormalServers(v)
    else if key == "tools" && ValidTools(v) then NormalTools(v)
    else v
  }

  function Stored(existing: Option<Object>): Object {
    if existing.Some? then existing.value else map[]
  }

  /** The keys of the merged config: everything sent, everything stored and
      `api_key`, minus a provider nobody sent on an agent that is not external. */
  function MergedKeys(kind: Kind, request: Object, existing: Option<Object>): set<string> {
    var all := request.Keys + Stored(existing).Keys + {"api_key"};
    if kind.External? || "provider" in request then all else all - {"provider"}
  }

  /** The merged config, key by key. */
  function Merged(kind: Kind, request: Object, existing: Option<Object>, generated: string, services: Services): Object
  {
    map key | key in MergedKeys(kind, request, existing) ::
      if key == "api_key" then Str(ChosenKey(request, existing, generated))
      else if key in request then Normalized(key, request[key], services)
      else Get(Stored(existing), key)
  }

  function Processed(kind: Kind, request: Object, existing: Option<Object>, generated: string, services: Services)
    : Result<Object, ConfigError>
  {
    var rejection := Rejection(kind, request, existing, services);
    if rejection.Some? then Failure(rejection.value)
    else Success(Merged(kind, request, existing, generated, services))
  }

  // ----- How the service computes it -----

  method ValidateOutputSchema(schema: Value) returns (ok: bool)
    ensures ok <==> ValidSchema(schema)
  {
    if !schema.Obj? {
      return false;
    }
    var todo := schema.fields.Keys;
    while todo != {}
      invariant todo <= schema.fields.Keys
      invariant forall name :: name in schema.fields && name !in todo ==> ValidSchemaField(schema.fields[name])
      decreases |todo|
    {
      var name :| name in todo;
      if !ValidSchemaField(schema.fields[name]) {
        return false;
      }
      todo := todo - {name};
    }
    return true;
  }

  method ProcessTools(tools: Value) returns (result: Result<Value, ConfigError>)
    ensures result == if ValidTools(tools) then Success(NormalTools(tools)) else Failure(BadTools)
  {
    if !tools.Arr? {
      return Failure(BadTools);
    }
    var processed: seq<Value> := [];
    for i := 0 to |tools.items|
      invariant |processed| == i
      invariant forall j :: 0 <= j < i ==> tools.items[j].Obj? && processed[j] == Obj(NormalTool(tools.items[j].fields))
    {
      if !tools.items[i].Obj? {
        return Failure(BadTools);
      }
      processed := processed + [Obj(NormalTool(tools.items[i].fields))];
    }
    assert processed == NormalTools(tools).items;
    return Success(Arr(processed));
  }

  method AllProvided(required: set<string>, environments: Object, refs: Object) returns (ok: bool)
    ensures ok <==> EnvProvided(required, environments, refs)
  {
    var todo := required;
    while todo != {}
      invariant todo <= required
      invariant EnvProvided(required - todo, environments, refs)
      decreases |todo|
    {
      var name :| name in todo;
      todo := todo - {name};
      if name in environments {
        continue;
      }
      if name in refs {
        continue;
      }
      return false;
    }
    return true;
  }

  method ProcessServer(server: Value, services: Services) returns (result: Option<Object>)
    ensures result == if ValidServer(server, services) then Some(NormalServer(server.fields)) else None
  {
    if !server.Obj? || !Get(server.fields, "id").Str? {
      return None;
    }
    var entry := server.fields;
    var id := entry["id"].s;
    var processed: Object := map["id" := Str(id), "environments" := Get(entry, "environments"),
      "tools" := Get(entry, "tools")];
    if id in OAUTH_SERVERS {
      return if Get(entry, "environments").Obj? then Some(processed) else None;
    }
    var parsed := services.parseUuid(id);
    if parsed.None? {
      return None;
    }
    var required := services.requiredEnv(parsed.value);
    if required.None? || !Get(entry, "environments").Obj? {
      return None;
    }
    var refs := CredentialRefs(entry);
    var provided := AllProvided(required.value, Get(entry, "environments").fields, refs);
    if !provided {
      return None;
    }
    if refs != map[] {
      processed := processed["credential_refs" := Obj(refs)];
    }
    return Some(processed);
  }

  method ProcessMCPServers(servers: Value, services: Services) returns (result: Result<Value, ConfigError>)
    ensures result == if ValidServers(servers, services) then Success(NormalServers(servers)) else Failure(BadServers)
  {
    if !servers.Arr? {
      return Failure(BadServers);
    }
    var processed: seq<Value> := [];
    for i := 0 to |servers.items|
      invariant |processed| == i
      invariant forall j :: 0 <= j < i ==> ValidServer(servers.items[j], services)
      invariant forall j :: 0 <= j < i ==> processed[j] == Obj(NormalServer(servers.items[j].fields))
    {
      var entry := ProcessServer(servers.items[i], services);
      if entry.None? {
        return Failure(BadServers);
      }
      processed := processed + [Obj(entry.value)];
    }
    assert processed == NormalServers(servers).items;
    return Success(Arr(processed));
  }

  method StringIds(ids: Value, services: Services) returns (strings: Value)
    requires ids.Arr?
    ensures strings == NormalIds(ids, services)
  {
    var texts: seq<Value> := [];
    for i := 0 to |ids.items|
      invariant |texts| == i
      invariant forall j :: 0 <= j < i ==> texts[j] == Str(IdText(ids.items[j], services))
    {
      texts := texts + [Str(IdText(ids.items[i], services))];
    }
    assert texts == NormalIds(ids, services).items;
    return Arr(texts);
  }

  method CopyFields(names: seq<string>, request: Object, processed: Object) returns (copied: Object)
    ensures forall key :: key in copied <==> key in processed || (key in names && key in request)
    ensures forall key :: key in copied ==>
      copied[key] == if key in names && key in request then request[key] else processed[key]
  {
    copied := processed;
    for i := 0 to |names|
      invariant forall key :: key in copied <==> key in processed || (key in names[..i] && key in request)
      invariant forall key :: key in copied ==>
        copied[key] == if key in names[..i] && key in request then request[key] else processed[key]
    {
      assert names[..i + 1] == names[..i] + [names[i]];
      if names[i] in request {
        copied := copied[names[i] := request[names[i]]];
      }
    }
    assert names[..|names|] == names;
  }

  /** A stored key is backfilled unless the request sent it, processing already
      set it, or it is a provider on an agent that is not external. */
  predicate Backfillable(kind: Kind, request: Object, processed: Object, key: string) {
    key !in request && key !in processed && (key == "provider" ==> kind.External?)
  }

  method BackfillStored(kind: Kind, request: Object, processed: Object, existing: Object) returns (filled: Object)
    ensures forall key :: key in filled <==>
      key in processed || (key in existing && Backfillable(kind, request, processed, key))
    ensures forall key :: key in filled ==>
      filled[key] == if key in processed then processed[key] else existing[key]
  {
    filled := processed;
    var todo := existing.Keys;
    while todo != {}
      invariant todo <= existing.Keys
      invariant forall key :: key in filled <==>
        key in processed || (key in existing && key !in todo && Backfillable(kind, request, processed, key))
      invariant forall key :: key in filled ==>
        filled[key] == if key in processed then processed[key] else existing[key]
      decreases |todo|
    {
      var key :| key in todo;
      todo := todo - {key};
      if key in request {
        continue;
      }
      if key in filled {
        continue;
      }
      if key == "provider" && !kind.External? {
        continue;
      }
      filled := filled[key := existing[key]];
    }
  }

  lemma SameMap(left: Object, right: Object)
    requires forall key :: key in left <==> key in right
    requires forall key :: key in left ==> left[key] == right[key]
    ensures left == right
  {}

  /** `base` with the updates outside `todo` already laid over it. */
  ghost predicate Overlaid<V(!new)>(fields: map<string, V>, base: map<string, V>, updates: map<string, V>,
                                    todo: set<string>)
  {
    && fields.Keys == base.Keys + (updates.Keys - todo)
    && forall key :: key in fields ==>
         fields[key] == if key in updates && key !in todo then updates[key] else base[key]
  }

  lemma OverlaidNext<V(!new)>(fields: map<string, V>, base: map<string, V>, updates: map<string, V>,
                              todo: set<string>, key: string)
    requires Overlaid(fields, base, updates, todo) && key in todo && todo <= updates.Keys
    ensures Overlaid(fields[key := updates[key]], base, updates, todo - {key})
  {
    assert updates.Keys - (todo - {key}) == (updates.Keys - todo) + {key};
  }

  lemma OverlaidAll<V(!new)>(fields: map<string, V>, base: map<string, V>, updates: map<string, V>)
    requires Overlaid(fields, base, updates, {})
    ensures fields == base + updates
  {
  }

  method Overlay(base: Object, updates: Object) returns (fields: Object)
    ensures fields == base + updates
  {
    fields := base;
    var todo := updates.Keys;
    while todo != {}
      invariant todo <= updates.Keys && Overlaid(fields, base, updates, todo)
      decreases |todo|
    {
      var key :| key in todo;
      OverlaidNext(fields, base, updates, todo, key);
      todo := todo - {key};
      fields := fields[key := updates[key]];
    }
    OverlaidAll(fields, base, updates);
  }

  method UpdateConfig(config: Text, updates: Object) returns (updated: Text)
    ensures updated == Document(Fields(config) + updates)
  {
    var decoded := Decode(config);
    var fields := Overlay(if decoded.None? then map[] else decoded.value, updates);
    return Document(fields);
  }

  method ProcessKey(request: Object, existing: Option<Object>, generated: string) returns (processed: Object)
    ensures processed == map["api_key" := Str(ChosenKey(request, existing, generated))]
  {
    if HoldsText(request, "api_key") {
      processed := map["api_key" := request["api_key"]];
    } else if existing.Some? {
      if HoldsText(existing.value, "api_key") {
        processed := map["api_key" := existing.value["api_key"]];
      } else {
        processed := map["api_key" := Str(generated)];
      }
    } else {
      processed := map["api_key" := Str(generated)];
    }
  }

  /** The part of the processed map that mirrors the request: raw copies and
      normalised values, covering every key normalisation changes. */
  ghost predicate MirrorsRequest(processed: Object, request: Object, services: Services) {
    && (forall key :: key in processed && key != "api_key" ==>
          key in request && processed[key] == Normalized(key, request[key], services))
    && (forall key :: key in request && key != "api_key" && key !in processed ==>
          Normalized(key, request[key], services) == request[key])
  }

  ghost predicate CopiesRequest(processed: Object, request: Object) {
    forall key :: key in processed && key != "api_key" ==> key in request && processed[key] == request[key]
  }

  /** The normalising middle of ProcessAgentConfig: ids, servers, tools. */
  method ProcessSent(request: Object, copied: Object, services: Services) returns (result: Result<Object, ConfigError>)
    requires "api_key" in copied && CopiesRequest(copied, request)
    ensures result.Failure? <==> RequestRejection(request, services).Some?
    ensures result.Failure? ==> result.error == RequestRejection(request, services).value
    ensures result.Success? ==> "api_key" in result.value && result.value["api_key"] == copied["api_key"]
    ensures result.Success? ==> MirrorsRequest(result.value, request, services)
  {
    var processed := copied;
    if "custom_tool_ids" in request && request["custom_tool_ids"].Arr? {
      var ids := StringIds(request["custom_tool_ids"], services);
      processed := processed["custom_tool_ids" := ids];
    }
    if "mcp_servers" in request && !request["mcp_servers"].Null? {
      var servers := ProcessMCPServers(request["mcp_servers"], services);
      if servers.Failure? {
        return Failure(servers.error);
      }
      processed := processed["mcp_servers" := servers.value];
    }
    if "tools" in request && !request["tools"].Null? {
      var tools := ProcessTools(request["tools"]);
      if tools.Failure? {
        return Failure(tools.error);
      }
      processed := processed["tools" := tools.value];
    }
    return Success(processed);
  }

  /** Like MirrorsRequest once the provider of an external agent is set: an
      unsent provider is the stored one. */
  ghost predicate ReadyToMerge(kind: Kind, processed: Object, request: Object, existing: Option<Object>,
                               services: Services)
  {
    && (forall key :: key in processed && key != "api_key" && key in request ==>
          processed[key] == Normalized(key, request[key], services))
    && (forall key :: key in processed && key != "api_key" && key !in request ==>
          key == "provider" && kind.External? && key in Stored(existing).Keys
            && processed[key] == Stored(existing)[key])
    && (forall key :: key in request && key != "api_key" && key !in processed ==>
          Normalized(key, request[key], services) == request[key])
  }

  method ProcessProvider(kind: Kind, request: Object, existing: Option<Object>, processed: Object, services: Services)
    returns (result: Result<Object, ConfigError>)
    requires "api_key" in processed && MirrorsRequest(processed, request, services)
    ensures kind.External? ==>
      var error := ProviderError(Effective(request, existing, "provider"));
      (result.Failure? <==> error.Some?) && (error.Some? ==> result.error == error.value)
    ensures !kind.External? ==> result.Success?
    ensures result.Success? ==> "api_key" in result.value && result.value["api_key"] == processed["api_key"]
    ensures result.Success? ==> ReadyToMerge(kind, result.value, request, existing, services)
  {
    if !kind.External? {
      return Success(processed);
    }
    var provider := Effective(request, existing, "provider");
    if !provider.Str? || provider.s == "" {
      return Failure(ProviderRequired);
    }
    var valid := false;
    for i := 0 to |PROVIDERS|
      invariant valid <==> provider.s in PROVIDERS[..i]
    {
      if provider.s == PROVIDERS[i] {
        valid := true;
        break;
      }
    }
    if !valid {
      return Failure(ProviderUnsupported);
    }
    return Success(processed["provider" := provider]);
  }

  /** Overlaying the processed keys on the request's own config gives the merged
      config: this is where keys outside the allowlist survive. */
  lemma OverlayIsMerged(kind: Kind, request: Object, existing: Option<Object>, generated: string, services: Services,
                        processed: Object, filled: Object)
    requires "api_key" in processed && processed["api_key"] == Str(ChosenKey(request, existing, generated))
    requires ReadyToMerge(kind, processed, request, existing, services)
    requires forall key :: key in filled <==>
      key in processed || (key in Stored(existing).Keys && Backfillable(kind, request, processed, key))
    requires forall key :: key in filled ==>
      filled[key] == if key in processed then processed[key] else Stored(existing)[key]
    ensures request + filled == Merged(kind, request, existing, generated, services)
  {
    var merged := Merged(kind, request, existing, generated, services);
    forall key ensures key in request + filled <==> key in merged {}
    forall key | key in merged ensures (request + filled)[key] == merged[key] {}
  }

  method CheckEffective(request: Object, existing: Option<Object>) returns (error: Option<ConfigError>)
    ensures error == EffectiveRejection(request, existing)
  {
    if Effective(request, existing, "preload_memory") == Bool(true) {
      if Effective(request, existing, "load_memory") != Bool(true) {
        return Some(PreloadNeedsLoad);
      }
    }
    if "output_schema" in request && !request["output_schema"].Null? {
      var schemaOk := ValidateOutputSchema(request["output_schema"]);
      if !schemaOk {
        return Some(BadSchema);
      }
    }
    return None;
  }

  method CopyCommonFields(request: Object, processed: Object) returns (copied: Object)
    requires processed.Keys == {"api_key"}
    ensures CopiesRequest(copied, request)
    ensures "api_key" in copied && copied["api_key"] == processed["api_key"]
  {
    copied := CopyFields(COMMON_FIELDS, request, processed);
    assert "api_key" !in COMMON_FIELDS;
  }

  method MergeStored(kind: Kind, config: Text, existing: Option<Object>, generated: string, services: Services,
                     ready: Object)
    returns (updated: Text)
    requires "api_key" in ready && ready["api_key"] == Str(ChosenKey(Fields(config), existing, generated))
    requires ReadyToMerge(kind, ready, Fields(config), existing, services)
    ensures updated == Document(Merged(kind, Fields(config), existing, generated, services))
  {
    var filled := ready;
    if existing.Some? {
      filled := BackfillStored(kind, Fields(config), ready, existing.value);
    }
    OverlayIsMerged(kind, Fields(config), existing, generated, services, ready, filled);
    updated := UpdateConfig(config, filled);
  }

  /** ProcessAgentConfig: decides the config an agent of `kind` is stored with. */
  method ProcessAgentConfig(kind: Kind, config: Text, existing: Option<Object>, generated: string, services: Services)
    returns (result: Result<Text, ConfigError>)
    ensures var spec := Processed(kind, Fields(config), existing, generated, services);
      result == if spec.Failure? then Failure(spec.error) else Success(Document(spec.value))
  {
    var decoded := Decode(config);
    var request := if decoded.None? then map[] else decoded.value;
    var processed := ProcessKey(request, existing, generated);
    processed := CopyCommonFields(request, processed);
    var early := CheckEffective(request, existing);
    if early.Some? {
      return Failure(early.value);
    }
    var sent := ProcessSent(request, processed, services);
    if sent.Failure? {
      return Failure(sent.error);
    }
    var ready := ProcessProvider(kind, request, existing, sent.value, services);
    if ready.Failure? {
      return Failure(ready.error);
    }
    var updated := MergeStored(kind, config, existing, generated, services, ready.value);
    return Success(updated);
  }
}
