/** Laws of the config merge across several updates. */
module ConfigMerge {
  import opened Wrappers
  import opened Json
  import opened AgentModel
  import opened ConfigProcessor

  lemma ToolsIdempotent(v: Value)
    requires ValidTools(v)
    ensures ValidTools(NormalTools(v)) && NormalTools(NormalTools(v)) == NormalTools(v)
  {
    forall i | 0 <= i < |v.items|
      ensures NormalTool(NormalTool(v.items[i].fields)) == NormalTool(v.items[i].fields)
    {}
    assert NormalTools(NormalTools(v)).items == NormalTools(v).items;
  }

  lemma ServerIdempotent(v: Value, services: Services)
    requires ValidServer(v, services)
    ensures ValidServer(Obj(NormalServer(v.fields)), services)
    ensures NormalServer(NormalServer(v.fields)) == NormalServer(v.fields)
  {
    var once := NormalServer(v.fields);
    assert Get(once, "id") == Get(v.fields, "id");
    assert Get(once, "environments") == Get(v.fields, "environments");
    assert Get(once, "tools") == Get(v.fields, "tools");
    if v.fields["id"].s !in OAUTH_SERVERS {
      assert CredentialRefs(once) == CredentialRefs(v.fields);
    }
  }

  lemma ServersIdempotent(v: Value, services: Services)
    requires ValidServers(v, services)
    ensures ValidServers(NormalServers(v), services)
    ensures NormalServers(NormalServers(v)) == NormalServers(v)
  {
    var once := NormalServers(v);
    forall i | 0 <= i < |once.items|
      ensures ValidServer(once.items[i], services)
      ensures NormalServer(once.items[i].fields) == once.items[i].fields
    {
      ServerIdempotent(v.items[i], services);
    }
    assert NormalServers(once).items == once.items;
  }

  lemma IdsIdempotent(v: Value, services: Services)
    requires v.Arr?
    ensures NormalIds(NormalIds(v, services), services) == NormalIds(v, services)
  {
    assert NormalIds(NormalIds(v, services), services).items == NormalIds(v, services).items;
  }

  /** Normalising what was already normalised changes nothing. */
  lemma NormalizedIdempotent(key: string, v: Value, services: Services)
    ensures Normalized(key, Normalized(key, v, services), services) == Normalized(key, v, services)
  {
    if key == "custom_tool_ids" && v.Arr? {
      IdsIdempotent(v, services);
    } else if key == "mcp_servers" && ValidServers(v, services) {
      ServersIdempotent(v, services);
    } else if key == "tools" && ValidTools(v) {
      ToolsIdempotent(v);
    }
  }

  /** What a create stores under any key but api_key. */
  lemma StoredAt(kind: Kind, request: Object, generated: string, services: Services, key: string)
    requires key != "api_key"
    ensures var stored := Merged(kind, request, None, generated, services);
      && (key in stored <==> key in request)
      && (key in request ==> stored[key] == Normalized(key, request[key], services))
  {
  }

  lemma StoredServersValid(kind: Kind, request: Object, generated: string, services: Services)
    requires RequestRejection(request, services).None?
    ensures RequestRejection(Merged(kind, request, None, generated, services), services).None?
  {
    StoredAt(kind, request, generated, services, "mcp_servers");
    StoredAt(kind, request, generated, services, "tools");
    if "mcp_servers" in request && !request["mcp_servers"].Null? {
      ServersIdempotent(request["mcp_servers"], services);
    }
    if "tools" in request && !request["tools"].Null? {
      ToolsIdempotent(request["tools"]);
    }
  }

  lemma StoredMemoryValid(kind: Kind, request: Object, generated: string, services: Services)
    requires EffectiveRejection(request, None).None?
    ensures var stored := Merged(kind, request, None, generated, services);
      EffectiveRejection(stored, Some(stored)).None?
  {
    StoredAt(kind, request, generated, services, "preload_memory");
    StoredAt(kind, request, generated, services, "load_memory");
    StoredAt(kind, request, generated, services, "output_schema");
  }

  lemma StoredIsAccepted(kind: Kind, request: Object, generated: string, services: Services)
    requires Rejection(kind, request, None, services).None?
    ensures var stored := Merged(kind, request, None, generated, services);
      Rejection(kind, stored, Some(stored), services).None?
  {
    StoredServersValid(kind, request, generated, services);
    StoredMemoryValid(kind, request, generated, services);
    StoredAt(kind, request, generated, services, "provider");
  }

  lemma StoredKeyStays(kind: Kind, request: Object, generated: string, again: string, services: Services, key: string)
    requires generated != "" && key in Merged(kind, request, None, generated, services)
    ensures var stored := Merged(kind, request, None, generated, services);
      key in Merged(kind, stored, Some(stored), again, services)
      && Merged(kind, stored, Some(stored), again, services)[key] == stored[key]
  {
    NormalizedIdempotent(key, Get(request, key), services);
  }

  /** Sending back exactly what a create stored is accepted and changes nothing. */
  lemma ResubmittingIsIdentity(kind: Kind, request: Object, generated: string, again: string, services: Services)
    requires Processed(kind, request, None, generated, services).Success?
    requires generated != ""
    ensures var stored := Processed(kind, request, None, generated, services).value;
      Processed(kind, stored, Some(stored), again, services) == Success(stored)
  {
    var stored := Merged(kind, request, None, generated, services);
    StoredIsAccepted(kind, request, generated, services);
    var twice := Merged(kind, stored, Some(stored), again, services);
    forall key | key in stored ensures key in twice && twice[key] == stored[key] {
      StoredKeyStays(kind, request, generated, again, services, key);
    }
    assert forall key :: key in twice ==> key in stored;
    SameMap(twice, stored);
  }

  /** The first update sent a provider, the second did not and leaves (or stays
      off) the external kind: two updates drop it, one update would keep it. */
  predicate LosesProvider(kind2: Kind, r1: Object, r2: Object) {
    "provider" in r1 && "provider" !in r2 && !kind2.External?
  }

  /** The second update sent a blank api_key over a key the first one set: two
      updates keep the first one's key, one update falls back to the stored one. */
  predicate ForgetsKey(stored: Object, r1: Object, r2: Object, generated: string) {
    "api_key" in r2 && !HoldsText(r2, "api_key") && HoldsText(r1, "api_key")
    && r1["api_key"].s != ChosenKey(map[], Some(stored), generated)
  }

  lemma EffectiveComposes(kind1: Kind, stored: Object, r1: Object, r2: Object, g1: string, services: Services,
                          key: string)
    requires key == "preload_memory" || key == "load_memory"
      || (key == "provider" && (key in r1 || key in r2 || kind1.External?))
    ensures Effective(r1 + r2, Some(stored), key)
      == Effective(r2, Some(Merged(kind1, r1, Some(stored), g1, services)), key)
  {
  }

  lemma RequestComposes(r1: Object, r2: Object, services: Services)
    requires RequestRejection(r1, services).None? && RequestRejection(r2, services).None?
    ensures RequestRejection(r1 + r2, services).None?
  {
    assert Get(r1 + r2, "mcp_servers") == if "mcp_servers" in r2 then Get(r2, "mcp_servers")
      else Get(r1, "mcp_servers");
    assert Get(r1 + r2, "tools") == if "tools" in r2 then Get(r2, "tools") else Get(r1, "tools");
  }

  lemma MemoryComposes(kind1: Kind, stored: Object, r1: Object, r2: Object, g1: string, services: Services)
    requires EffectiveRejection(r1, Some(stored)).None?
    requires EffectiveRejection(r2, Some(Merged(kind1, r1, Some(stored), g1, services))).None?
    ensures EffectiveRejection(r1 + r2, Some(stored)).None?
  {
    EffectiveComposes(kind1, stored, r1, r2, g1, services, "preload_memory");
    EffectiveComposes(kind1, stored, r1, r2, g1, services, "load_memory");
    assert Get(r1 + r2, "output_schema") == if "output_schema" in r2 then Get(r2, "output_schema")
      else Get(r1, "output_schema");
  }

  lemma ComposedAccepted(kind1: Kind, kind2: Kind, stored: Object, r1: Object, r2: Object, g1: string,
                         services: Services)
    requires Rejection(kind1, r1, Some(stored), services).None?
    requires Rejection(kind2, r2, Some(Merged(kind1, r1, Some(stored), g1, services)), services).None?
    ensures Rejection(kind2, r1 + r2, Some(stored), services).None?
  {
    RequestComposes(r1, r2, services);
    MemoryComposes(kind1, stored, r1, r2, g1, services);
    if "provider" in r1 || "provider" in r2 || kind1.External? {
      EffectiveComposes(kind1, stored, r1, r2, g1, services, "provider");
    }
  }

  lemma ComposedKey(stored: Object, r1: Object, r2: Object, g1: string, g2: string, first: Object)
    requires g1 != ""
    requires "api_key" in first && first["api_key"] == Str(ChosenKey(r1, Some(stored), g1))
    ensures ChosenKey(r2, Some(first), g2) == ChosenKey(r1 + r2, Some(stored), g1) <==> !ForgetsKey(stored, r1, r2, g1)
  {
  }

  lemma TwiceAt(kind1: Kind, kind2: Kind, stored: Object, r1: Object, r2: Object,
                g1: string, g2: string, services: Services, key: string)
    requires key != "api_key"
      && key in Merged(kind2, r2, Some(Merged(kind1, r1, Some(stored), g1, services)), g2, services)
    requires key in Merged(kind2, r1 + r2, Some(stored), g1, services)
    ensures Merged(kind2, r2, Some(Merged(kind1, r1, Some(stored), g1, services)), g2, services)[key]
      == Merged(kind2, r1 + r2, Some(stored), g1, services)[key]
  {
  }

  /** An accepted update of an external agent finds a provider somewhere. */
  lemma ProviderComesFromSomewhere(kind1: Kind, kind2: Kind, stored: Object, r1: Object, r2: Object, g1: string,
                                   services: Services)
    requires kind2.External?
    requires Rejection(kind2, r2, Some(Merged(kind1, r1, Some(stored), g1, services)), services).None?
    ensures "provider" in r2 || "provider" in MergedKeys(kind1, r1, Some(stored))
  {
  }

  lemma KeysCompose(kind1: Kind, kind2: Kind, stored: Object, r1: Object, r2: Object)
    requires !LosesProvider(kind2, r1, r2)
    requires kind2.External? ==> "provider" in r2 || "provider" in MergedKeys(kind1, r1, Some(stored))
    ensures var all := r2.Keys + MergedKeys(kind1, r1, Some(stored)) + {"api_key"};
      (if kind2.External? || "provider" in r2 then all else all - {"provider"})
        == MergedKeys(kind2, r1 + r2, Some(stored))
  {
  }

  lemma ComposedKeys(kind1: Kind, kind2: Kind, stored: Object, r1: Object, r2: Object,
                     g1: string, g2: string, services: Services)
    requires !LosesProvider(kind2, r1, r2)
    requires Rejection(kind2, r2, Some(Merged(kind1, r1, Some(stored), g1, services)), services).None?
    ensures Merged(kind2, r2, Some(Merged(kind1, r1, Some(stored), g1, services)), g2, services).Keys
      == Merged(kind2, r1 + r2, Some(stored), g1, services).Keys
  {
    if kind2.External? {
      ProviderComesFromSomewhere(kind1, kind2, stored, r1, r2, g1, services);
    }
    KeysCompose(kind1, kind2, stored, r1, r2);
    assert Merged(kind1, r1, Some(stored), g1, services).Keys == MergedKeys(kind1, r1, Some(stored));
  }

  /** Outside the two cases the updates compose. */
  lemma TwiceIsOnce(kind1: Kind, kind2: Kind, stored: Object, r1: Object, r2: Object,
                    g1: string, g2: string, services: Services)
    requires g1 != "" && !LosesProvider(kind2, r1, r2) && !ForgetsKey(stored, r1, r2, g1)
    requires Rejection(kind2, r2, Some(Merged(kind1, r1, Some(stored), g1, services)), services).None?
    ensures Merged(kind2, r2, Some(Merged(kind1, r1, Some(stored), g1, services)), g2, services)
      == Merged(kind2, r1 + r2, Some(stored), g1, services)
  {
    var first := Merged(kind1, r1, Some(stored), g1, services);
    var twice := Merged(kind2, r2, Some(first), g2, services);
    var once := Merged(kind2, r1 + r2, Some(stored), g1, services);
    ComposedKeys(kind1, kind2, stored, r1, r2, g1, g2, services);
    ComposedKey(stored, r1, r2, g1, g2, first);
    forall key | key in twice ensures twice[key] == once[key] {
      assert key in once;
      if key != "api_key" {
        TwiceAt(kind1, kind2, stored, r1, r2, g1, g2, services, key);
      }
    }
    SameMap(twice, once);
  }

  /** In either of them the two ways differ. */
  lemma TwiceDiffers(kind1: Kind, kind2: Kind, stored: Object, r1: Object, r2: Object,
                     g1: string, g2: string, services: Services)
    requires g1 != "" && (LosesProvider(kind2, r1, r2) || ForgetsKey(stored, r1, r2, g1))
    ensures Merged(kind2, r2, Some(Merged(kind1, r1, Some(stored), g1, services)), g2, services)
      != Merged(kind2, r1 + r2, Some(stored), g1, services)
  {
    var first := Merged(kind1, r1, Some(stored), g1, services);
    var twice := Merged(kind2, r2, Some(first), g2, services);
    var once := Merged(kind2, r1 + r2, Some(stored), g1, services);
    if LosesProvider(kind2, r1, r2) {
      assert "provider" in once && "provider" !in twice;
    } else {
      ComposedKey(stored, r1, r2, g1, g2, first);
      assert twice["api_key"] != once["api_key"];
    }
  }

  /** Two accepted updates in a row are one update of the second request laid
      over the first, except in the two cases named above, and then never. */
  lemma UpdatesCompose(kind1: Kind, kind2: Kind, stored: Object, r1: Object, r2: Object,
                       g1: string, g2: string, services: Services)
    requires g1 != ""
    requires Processed(kind1, r1, Some(stored), g1, services).Success?
    requires Processed(kind2, r2, Some(Merged(kind1, r1, Some(stored), g1, services)), g2, services).Success?
    ensures Processed(kind2, r1 + r2, Some(stored), g1, services).Success?
    ensures var first := Processed(kind1, r1, Some(stored), g1, services).value;
      Processed(kind2, r2, Some(first), g2, services) == Processed(kind2, r1 + r2, Some(stored), g1, services)
      <==> !LosesProvider(kind2, r1, r2) && !ForgetsKey(stored, r1, r2, g1)
  {
    ComposedAccepted(kind1, kind2, stored, r1, r2, g1, services);
    if !LosesProvider(kind2, r1, r2) && !ForgetsKey(stored, r1, r2, g1) {
      TwiceIsOnce(kind1, kind2, stored, r1, r2, g1, g2, services);
    } else {
      TwiceDiffers(kind1, kind2, stored, r1, r2, g1, g2, services);
    }
  }
}
