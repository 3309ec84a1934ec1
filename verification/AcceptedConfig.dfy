/** Which configs processing accepts and what it stores of them, key by key and by
    the literal names of the service: providers, integrations, schema types and the
    columns of a tool or server entry. */
module AcceptedConfig {
  import opened Wrappers
  import opened Json
  import opened AgentModel
  import opened ConfigProcessor
  import opened TypeProcessors

  // ----- The checks -----

  /** The value a config will hold under a key: the one sent, else the stored one. */
  predicate WillHold(sent: Object, stored: Object, key: string, v: Value) {
    if key in sent then sent[key] == v else key in stored && stored[key] == v
  }

  predicate SendsOne(sent: Object, key: string) {
    key in sent && sent[key] != Null
  }

  predicate NamesType(field: Value) {
    && field.Obj? && "type" in field.fields && field.fields["type"].Str?
    && field.fields["type"].s in {"string", "number", "integer", "boolean", "array", "object"}
  }

  predicate IsIntegration(id: string) {
    id in {"github", "notion", "stripe", "linear", "paypal", "hubspot", "monday", "atlassian", "asana", "canva",
           "supabase", "google_calendar"}
  }

  predicate HoldsObject(o: Object, key: string) {
    key in o && o[key].Obj?
  }

  /** A server of the catalog all of whose variables are given, inline or by
      reference; an integration needs neither. */
  predicate IsUsable(server: Value, services: Services) {
    && server.Obj? && "id" in server.fields && server.fields["id"].Str? && HoldsObject(server.fields, "environments")
    && var id := server.fields["id"].s;
       IsIntegration(id) ||
       (match services.parseUuid(id)
        case None => false
        case Some(row) =>
          match services.requiredEnv(row)
          case None => false
          case Some(names) =>
            forall name :: name in names ==>
              || name in server.fields["environments"].fields
              || (HoldsObject(server.fields, "credential_refs") && name in server.fields["credential_refs"].fields))
  }

  predicate PreloadsAlone(sent: Object, stored: Object) {
    WillHold(sent, stored, "preload_memory", Bool(true)) && !WillHold(sent, stored, "load_memory", Bool(true))
  }

  predicate SendsBadSchema(sent: Object) {
    && SendsOne(sent, "output_schema")
    && !(sent["output_schema"].Obj?
         && forall name :: name in sent["output_schema"].fields ==> NamesType(sent["output_schema"].fields[name]))
  }

  predicate SendsBadServers(sent: Object, services: Services) {
    && SendsOne(sent, "mcp_servers")
    && !(sent["mcp_servers"].Arr?
         && forall i :: 0 <= i < |sent["mcp_servers"].items| ==> IsUsable(sent["mcp_servers"].items[i], services))
  }

  predicate SendsBadTools(sent: Object) {
    && SendsOne(sent, "tools")
    && !(sent["tools"].Arr? && forall i :: 0 <= i < |sent["tools"].items| ==> sent["tools"].items[i].Obj?)
  }

  ghost predicate NamesProvider(sent: Object, stored: Object) {
    exists name :: name != "" && WillHold(sent, stored, "provider", Str(name))
  }

  predicate NamesKnownProvider(sent: Object, stored: Object) {
    exists name :: name in {"flowise", "n8n", "typebot", "dify", "openai"}
      && WillHold(sent, stored, "provider", Str(name))
  }

  /** Every refusal and its reason, in the order of the checks. */
  ghost predicate Refuses(kind: Kind, sent: Object, stored: Object, services: Services, error: ConfigError) {
    if PreloadsAlone(sent, stored) then error == PreloadNeedsLoad
    else if SendsBadSchema(sent) then error == BadSchema
    else if SendsBadServers(sent, services) then error == BadServers
    else if SendsBadTools(sent) then error == BadTools
    else && kind == External && !NamesKnownProvider(sent, stored)
         && error == if NamesProvider(sent, stored) then ProviderUnsupported else ProviderRequired
  }

  ghost predicate Accepts(kind: Kind, sent: Object, stored: Object, services: Services) {
    && !PreloadsAlone(sent, stored) && !SendsBadSchema(sent) && !SendsBadServers(sent, services)
    && !SendsBadTools(sent) && (kind == External ==> NamesKnownProvider(sent, stored))
  }

  // ----- What is stored -----

  predicate SentOrNull(sent: Object, key: string, v: Value) {
    v == if key in sent then sent[key] else Null
  }

  /** A tool keeps eight keys, null where it was sent without. */
  predicate IsToolEntry(sent: Object, v: Value) {
    && v.Obj?
    && v.fields.Keys == {"id", "name", "description", "tags", "examples", "inputModes", "outputModes", "config"}
    && SentOrNull(sent, "id", v.fields["id"]) && SentOrNull(sent, "name", v.fields["name"])
    && SentOrNull(sent, "description", v.fields["description"]) && SentOrNull(sent, "tags", v.fields["tags"])
    && SentOrNull(sent, "examples", v.fields["examples"]) && SentOrNull(sent, "inputModes", v.fields["inputModes"])
    && SentOrNull(sent, "outputModes", v.fields["outputModes"]) && SentOrNull(sent, "config", v.fields["config"])
  }

  function KeptRefs(sent: Object): set<string> {
    if HoldsObject(sent, "credential_refs") && sent["credential_refs"].fields != map[]
       && !("id" in sent && sent["id"].Str? && IsIntegration(sent["id"].s))
    then {"credential_refs"} else {}
  }

  /** A server keeps its id, environments and tools; one of the catalog also the
      vault references it was sent with, if any. */
  predicate IsServerEntry(sent: Object, v: Value) {
    && v.Obj?
    && v.fields.Keys == {"id", "environments", "tools"} + KeptRefs(sent)
    && SentOrNull(sent, "id", v.fields["id"]) && SentOrNull(sent, "environments", v.fields["environments"])
    && SentOrNull(sent, "tools", v.fields["tools"])
    && ("credential_refs" in v.fields ==> SentOrNull(sent, "credential_refs", v.fields["credential_refs"]))
  }

  predicate IsIdEntry(sent: Value, v: Value, services: Services) {
    v == Str(match sent case Str(text) => text case other => services.format(other))
  }

  /** What one sent key other than the api_key is stored as. */
  ghost predicate IsStoredAs(key: string, sent: Value, v: Value, services: Services) {
    if key == "tools" && sent != Null then
      && sent.Arr? && v.Arr? && |v.items| == |sent.items|
      && forall i :: 0 <= i < |v.items| ==> sent.items[i].Obj? && IsToolEntry(sent.items[i].fields, v.items[i])
    else if key == "mcp_servers" && sent != Null then
      && sent.Arr? && v.Arr? && |v.items| == |sent.items|
      && forall i :: 0 <= i < |v.items| ==> sent.items[i].Obj? && IsServerEntry(sent.items[i].fields, v.items[i])
    else if key == "custom_tool_ids" && sent.Arr? then
      && v.Arr? && |v.items| == |sent.items|
      && forall i :: 0 <= i < |v.items| ==> IsIdEntry(sent.items[i], v.items[i], services)
    else v == sent
  }

  predicate GivesKey(o: Object) {
    "api_key" in o && o["api_key"].Str? && |o["api_key"].s| > 0
  }

  /** The key sent, else the stored one, else the generated one. */
  predicate IsChosenKey(sent: Object, stored: Object, generated: string, v: Value) {
    v == if GivesKey(sent) then sent["api_key"] else if GivesKey(stored) then stored["api_key"] else Str(generated)
  }

  /** The config as stored: which keys it has and what each of them holds. */
  ghost predicate Stores(kind: Kind, sent: Object, stored: Object, generated: string, services: Services,
                         config: Object)
  {
    && (forall key :: key in config <==>
          || key == "api_key" || key in sent
          || (key in stored && (key == "provider" ==> kind == External)))
    && IsChosenKey(sent, stored, generated, config["api_key"])
    && (forall key :: key in sent && key != "api_key" ==> IsStoredAs(key, sent[key], config[key], services))
    && (forall key :: key in config && key !in sent && key != "api_key" ==> config[key] == stored[key])
  }

  // ----- The laws -----

  /** The stored object processing starts from: none on a create. */
  predicate StartsFrom(existing: Option<Object>, stored: Object) {
    existing == Some(stored) || (existing == None && stored == map[])
  }

  lemma ServersAreUsable(server: Value, services: Services)
    ensures ValidServer(server, services) <==> IsUsable(server, services)
  {
    if server.Obj? && Get(server.fields, "id").Str? && Get(server.fields, "environments").Obj? {
      assert OAUTH_SERVERS == {"github", "notion", "stripe", "linear", "paypal", "hubspot", "monday", "atlassian",
        "asana", "canva", "supabase", "google_calendar"};
    }
  }

  lemma ProviderIsKnown(sent: Object, existing: Option<Object>, stored: Object)
    requires StartsFrom(existing, stored)
    ensures var error := ProviderError(Effective(sent, existing, "provider"));
      && (error == None <==> NamesKnownProvider(sent, stored))
      && (error == Some(ProviderRequired) <==> !NamesProvider(sent, stored))
  {
    var provider := Effective(sent, existing, "provider");
    assert PROVIDERS == ["flowise", "n8n", "typebot", "dify", "openai"];
    if provider.Str? {
      assert WillHold(sent, stored, "provider", Str(provider.s));
    }
  }

  lemma MemoryIsLoaded(sent: Object, existing: Option<Object>, stored: Object)
    requires StartsFrom(existing, stored)
    ensures EffectiveRejection(sent, existing) == Some(PreloadNeedsLoad) <==> PreloadsAlone(sent, stored)
    ensures EffectiveRejection(sent, existing) == Some(BadSchema) <==>
      !PreloadsAlone(sent, stored) && SendsBadSchema(sent)
  {
    assert SCHEMA_TYPES == {"string", "number", "integer", "boolean", "array", "object"};
    if SendsOne(sent, "output_schema") && sent["output_schema"].Obj? {
      var fields := sent["output_schema"].fields;
      assert forall name :: name in fields ==> (ValidSchemaField(fields[name]) <==> NamesType(fields[name]));
    }
  }

  lemma EntriesAreUsable(sent: Object, services: Services)
    ensures RequestRejection(sent, services) == Some(BadServers) <==> SendsBadServers(sent, services)
    ensures RequestRejection(sent, services) == Some(BadTools) <==>
      !SendsBadServers(sent, services) && SendsBadTools(sent)
  {
    if SendsOne(sent, "mcp_servers") && sent["mcp_servers"].Arr? {
      var items := sent["mcp_servers"].items;
      forall i | 0 <= i < |items| ensures ValidServer(items[i], services) <==> IsUsable(items[i], services) {
        ServersAreUsable(items[i], services);
      }
    }
  }

  /** Processing accepts exactly the configs that pass the five checks, and refuses
      the rest for the first one they fail. */
  lemma AcceptedExactly(kind: Kind, sent: Object, existing: Option<Object>, stored: Object, generated: string,
                        services: Services)
    requires StartsFrom(existing, stored)
    ensures var result := Processed(kind, sent, existing, generated, services);
      && (result.Success? <==> Accepts(kind, sent, stored, services))
      && (result.Failure? ==> Refuses(kind, sent, stored, services, result.error))
  {
    MemoryIsLoaded(sent, existing, stored);
    EntriesAreUsable(sent, services);
    ProviderIsKnown(sent, existing, stored);
  }

  lemma ToolEntries(v: Value)
    requires ValidTools(v)
    ensures forall i :: 0 <= i < |v.items| ==> IsToolEntry(v.items[i].fields, NormalTools(v).items[i])
  {
    forall i | 0 <= i < |v.items| ensures IsToolEntry(v.items[i].fields, NormalTools(v).items[i]) {
      var entry := NormalTool(v.items[i].fields);
      assert entry.Keys == {"id", "name", "description", "tags", "examples", "inputModes", "outputModes", "config"};
    }
  }

  lemma ServerEntry(server: Object)
    ensures IsServerEntry(server, Obj(NormalServer(server)))
  {
    assert OAUTH_SERVERS == {"github", "notion", "stripe", "linear", "paypal", "hubspot", "monday", "atlassian",
      "asana", "canva", "supabase", "google_calendar"};
    assert NormalServer(server).Keys == {"id", "environments", "tools"} + KeptRefs(server);
  }

  lemma ServerEntries(v: Value)
    requires v.Arr? && forall i :: 0 <= i < |v.items| ==> v.items[i].Obj?
    ensures forall i :: 0 <= i < |v.items| ==> IsServerEntry(v.items[i].fields, NormalServers(v).items[i])
  {
    forall i | 0 <= i < |v.items| ensures IsServerEntry(v.items[i].fields, NormalServers(v).items[i]) {
      ServerEntry(v.items[i].fields);
    }
  }

  lemma SentIsStoredAs(sent: Object, key: string, services: Services)
    requires key in sent && !SendsBadServers(sent, services) && !SendsBadTools(sent)
    ensures IsStoredAs(key, sent[key], Normalized(key, sent[key], services), services)
  {
    var v := sent[key];
    if key == "tools" && v != Null {
      ToolEntries(v);
    } else if key == "mcp_servers" && v != Null {
      EntriesAreUsable(sent, services);
      ServerEntries(v);
    } else {
      assert key == "tools" || key == "mcp_servers" ==> Normalized(key, v, services) == v;
    }
  }

  lemma KeyIsChosen(sent: Object, existing: Option<Object>, stored: Object, generated: string)
    requires StartsFrom(existing, stored)
    ensures IsChosenKey(sent, stored, generated, Str(ChosenKey(sent, existing, generated)))
  {
  }

  /** An accepted config is stored with exactly these keys and values. */
  lemma StoredExactly(kind: Kind, sent: Object, existing: Option<Object>, stored: Object, generated: string,
                      services: Services)
    requires StartsFrom(existing, stored) && Accepts(kind, sent, stored, services)
    ensures var result := Processed(kind, sent, existing, generated, services);
      result.Success? && Stores(kind, sent, stored, generated, services, result.value)
  {
    AcceptedExactly(kind, sent, existing, stored, generated, services);
    KeyIsChosen(sent, existing, stored, generated);
    var config := Merged(kind, sent, existing, generated, services);
    forall key | key in sent && key != "api_key" ensures IsStoredAs(key, sent[key], config[key], services) {
      SentIsStoredAs(sent, key, services);
    }
  }
}
