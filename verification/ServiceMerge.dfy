/** What an update of the service stores: the merge over the stored config without
    its expandable copies, then what the agent's kind makes of it. When two such
    updates are one, and which sent values they lose. */
module ServiceMerge {
  import opened Wrappers
  import opened Json
  import opened AgentModel
  import opened ConfigProcessor
  import opened ConfigMerge
  import opened TypeProcessors
  import opened ToolCatalog
  import opened ReadPath
  import opened AgentTables
  import opened AgentService
  import opened AgentRuns

  // ----- The config after an update -----

  /** What the kind's processor adds: nothing, the fetched card, or the key the
      agent already has (with one to generate when it has none). */
  datatype Finish = Plain | Carded(card: Object) | Keyed(generated: string)

  function FinishOf(from: Kind, to: Kind, cardUrl: string, card: Option<Object>, typeKey: string): Finish {
    if to.LLM? || to.External? || from.External? then Plain
    else if to.A2A? || from.A2A? then if cardUrl == "" || card.None? then Plain else Carded(card.value)
    else Keyed(typeKey)
  }

  function Finished(f: Finish, stored: Object, merged: Object): Object {
    match f
    case Plain => merged
    case Carded(card) => merged["agent_card" := Obj(card)]
    case Keyed(generated) => merged["api_key" := KeptKey(stored, generated)]
  }

  function ConfigAfter(f: Finish, kind: Kind, stored: Object, r: Object, g: string, services: Services): Object {
    Finished(f, stored, Merged(kind, r, Some(Dropped(stored)), g, services))
  }

  function Lookup(o: Object, key: string): Option<Value> {
    if key in o then Some(o[key]) else None
  }

  /** The api_key an update settles on. */
  function SettledKey(f: Finish, before: Option<Value>, r: Object, g: string): Value {
    if f.Keyed? then (if before.Some? && before.value != Str("") then before.value else Str(f.generated))
    else if HoldsText(r, "api_key") then r["api_key"]
    else if before.Some? && before.value.Str? && before.value.s != "" then before.value
    else Str(g)
  }

  function SettledCard(f: Finish, before: Option<Value>, r: Object): Option<Value> {
    if f.Carded? then Some(Obj(f.card)) else if "agent_card" in r then Some(r["agent_card"]) else before
  }

  /** One key of the config after an update, from that key before it; `copied` says
      that the stored value is taken for an expanded copy. */
  function FieldAfter(f: Finish, kind: Kind, before: Option<Value>, copied: bool, r: Object, g: string,
                      services: Services, key: string): Option<Value>
  {
    if key == "api_key" then Some(SettledKey(f, before, r, g))
    else if key == "agent_card" then SettledCard(f, before, r)
    else if key in r then Some(Normalized(key, r[key], services))
    else if key == "provider" && !kind.External? then None
    else if copied then None
    else before
  }

  lemma DroppedAt(stored: Object, key: string)
    ensures Lookup(Dropped(stored), key) == if Expandable(stored, key) then None else Lookup(stored, key)
  {
  }

  lemma MergedAt(kind: Kind, stored: Object, r: Object, g: string, services: Services, key: string)
    ensures Lookup(Merged(kind, r, Some(stored), g, services), key) ==
      if key == "api_key" then Some(Str(ChosenKey(r, Some(stored), g)))
      else if key in r then Some(Normalized(key, r[key], services))
      else if key == "provider" && !kind.External? then None
      else Lookup(stored, key)
  {
  }

  lemma ConfigAfterAt(f: Finish, kind: Kind, stored: Object, r: Object, g: string, services: Services, key: string)
    ensures Lookup(ConfigAfter(f, kind, stored, r, g, services), key) 
      == FieldAfter(f, kind, Lookup(stored, key), Expandable(stored, key), r, g, services, key)
  {
    DroppedAt(stored, key);
    MergedAt(kind, Dropped(stored), r, g, services, key);
  }

  /** `o` is the config after such an update, seen key by key. */
  ghost predicate IsAfter(o: Object, f: Finish, kind: Kind, stored: Object, r: Object, g: string, services: Services) {
    forall key :: Lookup(o, key)
      == FieldAfter(f, kind, Lookup(stored, key), Expandable(stored, key), r, g, services, key)
  }

  lemma ConfigIsAfter(f: Finish, kind: Kind, stored: Object, r: Object, g: string, services: Services)
    ensures IsAfter(ConfigAfter(f, kind, stored, r, g, services), f, kind, stored, r, g, services)
  {
    forall key ensures Lookup(ConfigAfter(f, kind, stored, r, g, services), key)
      == FieldAfter(f, kind, Lookup(stored, key), Expandable(stored, key), r, g, services, key)
    {
      ConfigAfterAt(f, kind, stored, r, g, services, key);
    }
  }

  lemma SameLookups(a: Object, b: Object)
    ensures a == b <==> forall key :: Lookup(a, key) == Lookup(b, key)
  {
    if forall key :: Lookup(a, key) == Lookup(b, key) {
      forall key ensures key in a <==> key in b {
        assert Lookup(a, key) == Lookup(b, key);
      }
      forall key | key in a ensures a[key] == b[key] {
        assert Lookup(a, key) == Lookup(b, key);
      }
      SameMap(a, b);
    }
  }

  // ----- What the service adds to the merge law -----

  /** The copies an update drops before merging show exactly when one of them is
      stored and the request does not send it again. */
  lemma DropShowsExactly(kind: Kind, stored: Object, r: Object, g: string, services: Services)
    ensures Merged(kind, r, Some(Dropped(stored)), g, services) == Merged(kind, r, Some(stored), g, services)
      <==> forall key :: Expandable(stored, key) && key in stored ==> key in r
  {
    var with, without := Merged(kind, r, Some(stored), g, services),
      Merged(kind, r, Some(Dropped(stored)), g, services);
    SameLookups(without, with);
    forall key ensures Lookup(without, key) == Lookup(with, key)
      <==> (Expandable(stored, key) && key in stored ==> key in r)
    {
      DroppedAt(stored, key);
      DroppedAt(stored, "api_key");
      MergedAt(kind, stored, r, g, services, key);
      MergedAt(kind, Dropped(stored), r, g, services, key);
    }
  }

  /** An agent whose client stored tools of its own beside an id list: an update
      that sends nothing drops them, where the merge alone would keep them. */
  lemma StoredToolsAreDropped(g: string, services: Services)
    ensures var stored := map["api_key" := Str("k"), "custom_tool_ids" := Arr([Str("x")]),
      "custom_tools" := Obj(map[])];
      && "custom_tools" in Merged(LLM, map[], Some(stored), g, services)
      && "custom_tools" !in ConfigAfter(Plain, LLM, stored, map[], g, services)
  {
    var stored := map["api_key" := Str("k"), "custom_tool_ids" := Arr([Str("x")]), "custom_tools" := Obj(map[])];
    MergedAt(LLM, stored, map[], g, services, "custom_tools");
    ConfigAfterAt(Plain, LLM, stored, map[], g, services, "custom_tools");
  }

  /** A workflow agent keeps the key it has, whatever key an update sends. */
  lemma SentKeyIsOverwritten(g: string, t: string, services: Services)
    ensures Lookup(ConfigAfter(Keyed(t), Workflow, map["api_key" := Str("old")], map["api_key" := Str("new")], g,
      services), "api_key")
      == Some(Str("old"))
  {
    ConfigAfterAt(Keyed(t), Workflow, map["api_key" := Str("old")], map["api_key" := Str("new")], g, services,
      "api_key");
  }

  /** A sent value is stored, up to normalisation, except exactly: an api_key that
      is not text or that the kind overrides with another, and a card other than
      the one fetched. */
  lemma SentValueIsStored(f: Finish, kind: Kind, stored: Object, r: Object, g: string, services: Services, key: string)
    requires g != "" && key in r
    ensures Lookup(ConfigAfter(f, kind, stored, r, g, services), key) == Some(Normalized(key, r[key], services)) <==>
      if key == "api_key" then (if f.Keyed? then r[key] == KeptKey(stored, f.generated) else HoldsText(r, key))
      else key == "agent_card" && f.Carded? ==> r[key] == Obj(f.card)
  {
    ConfigAfterAt(f, kind, stored, r, g, services, key);
  }

  // ----- Two updates -----

  /** The first update leaves a value under an expandable key beside a non-empty id
      list, and the second does not send the key again: it takes the value for an
      expanded copy. */
  predicate ForgetsExpansion(stored: Object, r1: Object, r2: Object, key: string) {
    && IdsKey(key).Some? && key !in r2
    && (var ids := IdsKey(key).value; if ids in r1 then HoldsList(r1, ids) else HoldsList(stored, ids))
    && (key in r1 || (key in stored && !Expandable(stored, key)))
  }

  /** Both ways settle on the same key. */
  predicate KeysAgree(f1: Finish, f2: Finish, once: Finish, stored: Object, r1: Object, r2: Object, g1: string,
                      g2: string)
  {
    var before := Lookup(stored, "api_key");
    SettledKey(f2, Some(SettledKey(f1, before, r1, g1)), r2, g2) == SettledKey(once, before, r1 + r2, g1)
  }

  /** Both ways settle on the same card. */
  predicate CardsAgree(f1: Finish, f2: Finish, once: Finish, stored: Object, r1: Object, r2: Object) {
    var before := Lookup(stored, "agent_card");
    SettledCard(f2, SettledCard(f1, before, r1), r2) == SettledCard(once, before, r1 + r2)
  }

  lemma NormalKeepsList(ids: string, v: Value, services: Services)
    requires ids == "custom_tool_ids" || ids == "custom_mcp_server_ids"
    ensures Normalized(ids, v, services).Arr? && Normalized(ids, v, services).items != [] <==> v.Arr? && v.items != []
  {
  }

  lemma ListsCarryOver(first: Object, f: Finish, kind: Kind, stored: Object, r: Object, g: string, services: Services,
                       key: string)
    requires IsAfter(first, f, kind, stored, r, g, services) && IdsKey(key).Some?
    ensures Expandable(first, key) <==>
      var ids := IdsKey(key).value; if ids in r then HoldsList(r, ids) else HoldsList(stored, ids)
  {
    var ids := IdsKey(key).value;
    assert Lookup(first, ids) == FieldAfter(f, kind, Lookup(stored, ids), Expandable(stored, ids), r, g, services, ids);
    assert !Expandable(stored, ids);
    if ids in r {
      NormalKeepsList(ids, r[ids], services);
    }
  }

  lemma KeyAgrees(f1: Finish, f2: Finish, once: Finish, kind1: Kind, kind2: Kind, before: Option<Value>, r1: Object,
                  r2: Object, g1: string, g2: string, services: Services, key: string, c0: bool, c1: bool)
    requires key == "api_key" || key == "agent_card"
    ensures FieldAfter(f2, kind2, FieldAfter(f1, kind1, before, c0, r1, g1, services, key), c1, r2, g2, services, key)
      == FieldAfter(once, kind2, before, c0, r1 + r2, g1, services, key)
      <==> if key == "api_key"
           then SettledKey(f2, Some(SettledKey(f1, before, r1, g1)), r2, g2) == SettledKey(once, before, r1 + r2, g1)
           else SettledCard(f2, SettledCard(f1, before, r1), r2) == SettledCard(once, before, r1 + r2)
  {
  }

  lemma ProviderAgrees(f1: Finish, f2: Finish, once: Finish, kind1: Kind, kind2: Kind, before: Option<Value>,
                       r1: Object, r2: Object, g1: string, g2: string, services: Services)
    requires kind2.External? ==>
      "provider" in r2 || FieldAfter(f1, kind1, before, false, r1, g1, services, "provider").Some?
    ensures FieldAfter(f2, kind2, FieldAfter(f1, kind1, before, false, r1, g1, services, "provider"), false, r2, g2,
      services, "provider")
      == FieldAfter(once, kind2, before, false, r1 + r2, g1, services, "provider")
      <==> !LosesProvider(kind2, r1, r2)
  {
  }

  lemma OtherAgrees(f1: Finish, f2: Finish, once: Finish, kind1: Kind, kind2: Kind, before: Option<Value>, r1: Object,
                    r2: Object, g1: string, g2: string, services: Services, key: string, c0: bool, c1: bool)
    requires key != "api_key" && key != "agent_card" && key != "provider"
    ensures FieldAfter(f2, kind2, FieldAfter(f1, kind1, before, c0, r1, g1, services, key), c1, r2, g2, services, key)
      == FieldAfter(once, kind2, before, c0, r1 + r2, g1, services, key)
      <==> !(key !in r2 && c1 && (key in r1 || (before.Some? && !c0)))
  {
  }

  /** Where the two ways can differ: five keys, five conditions. */
  datatype Verdict = Verdict(key: bool, card: bool, provider: bool, tools: bool, servers: bool)

  predicate AgreesAt(v: Verdict, key: string) {
    if key == "api_key" then v.key
    else if key == "agent_card" then v.card
    else if key == "provider" then v.provider
    else if key == "custom_tools" then v.tools
    else if key == "custom_mcp_servers" then v.servers
    else true
  }

  lemma FiveKeys(v: Verdict)
    ensures (forall key :: AgreesAt(v, key)) <==> v.key && v.card && v.provider && v.tools && v.servers
  {
    if forall key :: AgreesAt(v, key) {
      assert AgreesAt(v, "api_key");
      assert AgreesAt(v, "agent_card");
      assert AgreesAt(v, "provider");
      assert AgreesAt(v, "custom_tools");
      assert AgreesAt(v, "custom_mcp_servers");
    }
  }

  function VerdictOf(f1: Finish, f2: Finish, once: Finish, kind2: Kind, stored: Object, r1: Object, r2: Object,
                     g1: string, g2: string): Verdict
  {
    Verdict(KeysAgree(f1, f2, once, stored, r1, r2, g1, g2), CardsAgree(f1, f2, once, stored, r1, r2),
            !LosesProvider(kind2, r1, r2), !ForgetsExpansion(stored, r1, r2, "custom_tools"),
            !ForgetsExpansion(stored, r1, r2, "custom_mcp_servers"))
  }

  /** Both ways agree on a key exactly as the verdict says. */
  ghost predicate Decides(v: Verdict, two: Option<Value>, one: Option<Value>, key: string) {
    two == one <==> AgreesAt(v, key)
  }

  lemma KeyDecided(first: Object, f1: Finish, f2: Finish, once: Finish, kind1: Kind, kind2: Kind, stored: Object,
                   r1: Object, r2: Object, g1: string, g2: string, services: Services, key: string)
    requires key == "api_key" || key == "agent_card"
    requires Lookup(first, key)
      == FieldAfter(f1, kind1, Lookup(stored, key), Expandable(stored, key), r1, g1, services, key)
    ensures Decides(VerdictOf(f1, f2, once, kind2, stored, r1, r2, g1, g2),
                    FieldAfter(f2, kind2, Lookup(first, key), Expandable(first, key), r2, g2, services, key),
                    FieldAfter(once, kind2, Lookup(stored, key), Expandable(stored, key), r1 + r2, g1, services,
                      key), key)
  {
    KeyAgrees(f1, f2, once, kind1, kind2, Lookup(stored, key), r1, r2, g1, g2, services, key,
              Expandable(stored, key), Expandable(first, key));
  }

  lemma ProviderDecided(first: Object, f1: Finish, f2: Finish, once: Finish, kind1: Kind, kind2: Kind, stored: Object,
                        r1: Object, r2: Object, g1: string, g2: string, services: Services)
    requires Lookup(first, "provider")
      == FieldAfter(f1, kind1, Lookup(stored, "provider"), false, r1, g1, services, "provider")
    requires kind2.External? ==> "provider" in r2 || "provider" in first
    ensures Decides(VerdictOf(f1, f2, once, kind2, stored, r1, r2, g1, g2),
                    FieldAfter(f2, kind2, Lookup(first, "provider"), false, r2, g2, services, "provider"),
                    FieldAfter(once, kind2, Lookup(stored, "provider"), false, r1 + r2, g1, services, "provider"),
                      "provider")
  {
    ProviderAgrees(f1, f2, once, kind1, kind2, Lookup(stored, "provider"), r1, r2, g1, g2, services);
  }

  lemma ExpansionDecided(first: Object, f1: Finish, f2: Finish, once: Finish, kind1: Kind, kind2: Kind, stored: Object,
                         r1: Object, r2: Object, g1: string, g2: string, services: Services, key: string)
    requires key == "custom_tools" || key == "custom_mcp_servers"
    requires Lookup(first, key)
      == FieldAfter(f1, kind1, Lookup(stored, key), Expandable(stored, key), r1, g1, services, key)
    requires Expandable(first, key) <==>
      var ids := IdsKey(key).value; if ids in r1 then HoldsList(r1, ids) else HoldsList(stored, ids)
    ensures Decides(VerdictOf(f1, f2, once, kind2, stored, r1, r2, g1, g2),
                    FieldAfter(f2, kind2, Lookup(first, key), Expandable(first, key), r2, g2, services, key),
                    FieldAfter(once, kind2, Lookup(stored, key), Expandable(stored, key), r1 + r2, g1, services,
                      key), key)
  {
    OtherAgrees(f1, f2, once, kind1, kind2, Lookup(stored, key), r1, r2, g1, g2, services, key,
                Expandable(stored, key), Expandable(first, key));
  }

  lemma OtherDecided(v: Verdict, f1: Finish, f2: Finish, once: Finish, kind1: Kind, kind2: Kind, before: Option<Value>,
                     r1: Object, r2: Object, g1: string, g2: string, services: Services, key: string)
    requires key !in {"api_key", "agent_card", "provider", "custom_tools", "custom_mcp_servers"}
    ensures Decides(v,
      FieldAfter(f2, kind2, FieldAfter(f1, kind1, before, false, r1, g1, services, key), false, r2, g2, services, key),
                    FieldAfter(once, kind2, before, false, r1 + r2, g1, services, key), key)
  {
  }

  lemma FieldsDecided(first: Object, f1: Finish, f2: Finish, once: Finish, kind1: Kind, kind2: Kind, stored: Object,
                      r1: Object, r2: Object, g1: string, g2: string, services: Services, key: string)
    requires IsAfter(first, f1, kind1, stored, r1, g1, services)
    requires kind2.External? ==> "provider" in r2 || "provider" in first
    ensures Decides(VerdictOf(f1, f2, once, kind2, stored, r1, r2, g1, g2),
                    FieldAfter(f2, kind2, Lookup(first, key), Expandable(first, key), r2, g2, services, key),
                    FieldAfter(once, kind2, Lookup(stored, key), Expandable(stored, key), r1 + r2, g1, services,
                      key), key)
  {
    assert Lookup(first, key)
      == FieldAfter(f1, kind1, Lookup(stored, key), Expandable(stored, key), r1, g1, services, key);
    if key == "api_key" || key == "agent_card" {
      KeyDecided(first, f1, f2, once, kind1, kind2, stored, r1, r2, g1, g2, services, key);
    } else if key == "provider" {
      ProviderDecided(first, f1, f2, once, kind1, kind2, stored, r1, r2, g1, g2, services);
    } else if key == "custom_tools" || key == "custom_mcp_servers" {
      ListsCarryOver(first, f1, kind1, stored, r1, g1, services, key);
      ExpansionDecided(first, f1, f2, once, kind1, kind2, stored, r1, r2, g1, g2, services, key);
    } else {
      OtherDecided(VerdictOf(f1, f2, once, kind2, stored, r1, r2, g1, g2), f1, f2, once, kind1, kind2,
                   Lookup(stored, key), r1, r2, g1, g2, services, key);
    }
  }

  /** The condition under which two updates are one. */
  predicate Composes(f1: Finish, f2: Finish, once: Finish, kind2: Kind, stored: Object, r1: Object, r2: Object,
                     g1: string, g2: string)
  {
    && !LosesProvider(kind2, r1, r2)
    && !ForgetsExpansion(stored, r1, r2, "custom_tools")
    && !ForgetsExpansion(stored, r1, r2, "custom_mcp_servers")
    && KeysAgree(f1, f2, once, stored, r1, r2, g1, g2)
    && CardsAgree(f1, f2, once, stored, r1, r2)
  }

  lemma SameByVerdict(two: Object, one: Object, v: Verdict)
    requires forall key :: Decides(v, Lookup(two, key), Lookup(one, key), key)
    ensures two == one <==> v.key && v.card && v.provider && v.tools && v.servers
  {
    forall key ensures Lookup(two, key) == Lookup(one, key) <==> AgreesAt(v, key) {
      assert Decides(v, Lookup(two, key), Lookup(one, key), key);
    }
    SameLookups(two, one);
    FiveKeys(v);
  }

  lemma AftersCompose(first: Object, two: Object, one: Object, f1: Finish, f2: Finish, once: Finish, kind1: Kind,
                      kind2: Kind, stored: Object, r1: Object, r2: Object, g1: string, g2: string, services: Services,
                      v: Verdict)
    requires IsAfter(first, f1, kind1, stored, r1, g1, services)
    requires IsAfter(two, f2, kind2, first, r2, g2, services)
    requires IsAfter(one, once, kind2, stored, r1 + r2, g1, services)
    requires kind2.External? ==> "provider" in r2 || "provider" in first
    requires v == VerdictOf(f1, f2, once, kind2, stored, r1, r2, g1, g2)
    ensures forall key :: Decides(v, Lookup(two, key), Lookup(one, key), key)
  {
    forall key ensures Decides(v, Lookup(two, key), Lookup(one, key), key) {
      FieldsDecided(first, f1, f2, once, kind1, kind2, stored, r1, r2, g1, g2, services, key);
    }
  }

  /** Two updates leave the config one update would, with the second request laid
      over the first, exactly when no provider is lost, no expansion forgotten, and
      the keys and the cards agree. */
  lemma ConfigsCompose(first: Object, two: Object, one: Object, f1: Finish, f2: Finish, once: Finish, kind1: Kind,
                       kind2: Kind, stored: Object, r1: Object, r2: Object, g1: string, g2: string, services: Services)
    requires first == ConfigAfter(f1, kind1, stored, r1, g1, services)
    requires two == ConfigAfter(f2, kind2, first, r2, g2, services)
    requires one == ConfigAfter(once, kind2, stored, r1 + r2, g1, services)
    requires kind2.External? ==> "provider" in r2 || "provider" in first
    ensures two == one <==> Composes(f1, f2, once, kind2, stored, r1, r2, g1, g2)
  {
    var v := VerdictOf(f1, f2, once, kind2, stored, r1, r2, g1, g2);
    ConfigIsAfter(f1, kind1, stored, r1, g1, services);
    ConfigIsAfter(f2, kind2, first, r2, g2, services);
    ConfigIsAfter(once, kind2, stored, r1 + r2, g1, services);
    AftersCompose(first, two, one, f1, f2, once, kind1, kind2, stored, r1, r2, g1, g2, services, v);
    SameByVerdict(two, one, v);
  }

  // ----- The kind stays -----

  predicate KeyedKind(kind: Kind) {
    kind.Workflow? || kind.Task? || IsFlow(kind)
  }

  /** The first update fetched a card, and the second sends another instead. */
  predicate OverridesCard(url1: string, url2: string, card1: Option<Object>, r2: Object) {
    url1 != "" && url2 == "" && card1.Some? && "agent_card" in r2 && r2["agent_card"] != Obj(card1.value)
  }

  lemma SameKindKeys(f1: Finish, f2: Finish, once: Finish, stored: Object, r1: Object, r2: Object, g1: string,
                     g2: string)
    requires g1 != "" && (f1.Keyed? <==> f2.Keyed?) && (f1.Keyed? <==> once.Keyed?)
    requires f1.Keyed? ==> f1.generated != "" && once == f1
    ensures KeysAgree(f1, f2, once, stored, r1, r2, g1, g2) <==> f1.Keyed? || !ForgetsKey(stored, r1, r2, g1)
  {
    var before := Lookup(stored, "api_key");
    assert ChosenKey(map[], Some(stored), g1) == if before.Some? && before.value.Str? && before.value.s != ""
      then before.value.s else g1;
  }

  lemma SameKindCards(url1: string, url2: string, card1: Option<Object>, card2: Option<Object>, stored: Object,
                      r1: Object, r2: Object, t1: string, t2: string)
    requires (url1 != "" ==> card1.Some?) && (url2 != "" ==> card2.Some?)
    ensures CardsAgree(FinishOf(A2A, A2A, url1, card1, t1), FinishOf(A2A, A2A, url2, card2, t2),
                       FinishOf(A2A, A2A, OrElse(url2, url1), if url2 != "" then card2 else card1, t1), stored, r1, r2)
      <==> !OverridesCard(url1, url2, card1, r2)
  {
  }

  lemma NoCards(f1: Finish, f2: Finish, once: Finish, stored: Object, r1: Object, r2: Object)
    requires !f1.Carded? && !f2.Carded? && !once.Carded?
    ensures CardsAgree(f1, f2, once, stored, r1, r2)
  {
  }

  /** While the kind stays: two updates are one exactly when the second loses no
      provider, forgets no expansion, does not blank out a key the first one sent
      (kinds that keep their key are safe from that), and overrides no card. */
  lemma SameKindComposes(kind: Kind, url1: string, url2: string, card1: Option<Object>, card2: Option<Object>,
                         stored: Object, r1: Object, r2: Object, g1: string, g2: string, t1: string, t2: string)
    requires g1 != "" && t1 != ""
    requires kind.A2A? ==> (url1 != "" ==> card1.Some?) && (url2 != "" ==> card2.Some?)
    requires kind.LLM? || kind.External? || kind.A2A? || KeyedKind(kind)
    ensures Composes(FinishOf(kind, kind, url1, card1, t1), FinishOf(kind, kind, url2, card2, t2),
                     FinishOf(kind, kind, OrElse(url2, url1), if url2 != "" then card2 else card1, t1),
                     kind, stored, r1, r2, g1, g2)
      <==> && !LosesProvider(kind, r1, r2)
           && !ForgetsExpansion(stored, r1, r2, "custom_tools")
           && !ForgetsExpansion(stored, r1, r2, "custom_mcp_servers")
           && (KeyedKind(kind) || !ForgetsKey(stored, r1, r2, g1))
           && (kind.A2A? ==> !OverridesCard(url1, url2, card1, r2))
  {
    var f1, f2 := FinishOf(kind, kind, url1, card1, t1), FinishOf(kind, kind, url2, card2, t2);
    var once := FinishOf(kind, kind, OrElse(url2, url1), if url2 != "" then card2 else card1, t1);
    SameKindKeys(f1, f2, once, stored, r1, r2, g1, g2);
    if kind.A2A? {
      SameKindCards(url1, url2, card1, card2, stored, r1, r2, t1, t2);
    } else {
      NoCards(f1, f2, once, stored, r1, r2);
    }
  }

  // ----- The service's update -----

  /** A config that decodes to nil is merged like an empty one. */
  lemma NullIsEmpty(kind: Kind, r: Object, g: string, services: Services)
    ensures Processed(kind, r, None, g, services) == Processed(kind, r, Some(map[]), g, services)
  {
    assert MergedKeys(kind, r, None) == MergedKeys(kind, r, Some(map[]));
    assert Merged(kind, r, None, g, services) == Merged(kind, r, Some(map[]), g, services);
    assert Rejection(kind, r, None, services) == Rejection(kind, r, Some(map[]), services);
  }

  lemma ForUpdateIs(current: Agent, request: Agent, help: Help, merged: Object)
    requires request.config == Document(merged) && ForUpdate(current, request, help).Some?
    ensures var patch := ForUpdate(current, request, help).value;
      && patch.kind == request.kind
      && patch.config == Document(Finished(FinishOf(current.kind, request.kind, request.cardUrl, help.card, help.key),
                                           Fields(current.config), merged))
  {
    OverlayOnItself(merged, KeptKey(Fields(current.config), help.key));
  }

  /** What an update that goes through stores as the agent's config. */
  lemma ProcessedUpdateIs(agents: map<nat, Agent>, current: Agent, request: Agent, env: Env)
    requires ProcessedUpdate(agents, current, request, env).Some?
    ensures var patch := ProcessedUpdate(agents, current, request, env).value;
      && patch.kind == request.kind
      && patch.config
        == Document(ConfigAfter(FinishOf(current.kind, request.kind, request.cardUrl, env.card, env.typeKey),
           request.kind, Fields(current.config), Fields(request.config), env.key, env.services))
    ensures Rejection(request.kind, Fields(request.config), Some(Dropped(Fields(current.config))), env.services).None?
  {
    var stored, r := Fields(current.config), Fields(request.config);
    NullIsEmpty(request.kind, r, env.key, env.services);
    var merged := Merged(request.kind, r, Some(Dropped(stored)), env.key, env.services);
    if current.config.NullText? {
      assert Dropped(stored) == map[];
    }
    ForUpdateIs(current, request.(config := Document(merged)), HelpFor(agents, env), merged);
  }

  /** Expanding the current agent on the way in changes nothing of that. */
  lemma ExpansionIsIgnored(f: Finish, kind: Kind, stored: Object, r: Object, g: string, services: Services,
                           catalog: Catalog, known: Services)
    ensures ConfigAfter(f, kind, Expanded(stored, catalog, known), r, g, services)
      == ConfigAfter(f, kind, stored, r, g, services)
  {
    DropUndoesExpand(stored, catalog, known);
    ExpandOnlyAdds(stored, catalog, known);
    assert !Expandable(stored, "api_key");
  }

  /** The second request laid over the first. */
  function LaidOver(q1: Agent, q2: Agent): Agent {
    q2.(cardUrl := OrElse(q2.cardUrl, q1.cardUrl), config := Document(Fields(q1.config) + Fields(q2.config)))
  }

  /** The three calls get the same answers where they ask the same questions: the
      single one generates the first one's keys and fetches the card last asked for. */
  ghost predicate SameAnswers(env1: Env, env2: Env, env: Env, q2: Agent) {
    && env1.services == env2.services == env.services
    && env.key == env1.key && env.typeKey == env1.typeKey
    && env1.lookup == env2.lookup == env.lookup
    && env.card == if q2.cardUrl != "" then env2.card else env1.card
  }

  function FinishFor(from: Kind, request: Agent, env: Env): Finish {
    FinishOf(from, request.kind, request.cardUrl, env.card, env.typeKey)
  }

  lemma ProviderIsThere(kind: Kind, r: Object, first: Object, services: Services)
    requires Rejection(kind, r, Some(Dropped(first)), services).None? && kind.External?
    ensures "provider" in r || "provider" in first
  {
    assert Effective(r, Some(Dropped(first)), "provider").Str?;
  }

  /** Two updates processed in a row, no read between them, against one. */
  lemma ProcessedUpdatesCompose(agents: map<nat, Agent>, a0: Agent, q1: Agent, q2: Agent, env1: Env, env2: Env,
                                env: Env)
    requires !q1.kind.Unset? && SameAnswers(env1, env2, env, q2)
    requires ProcessedUpdate(agents, a0, q1, env1).Some?
    requires ProcessedUpdate(agents, Patched(a0, ProcessedUpdate(agents, a0, q1, env1).value), q2, env2).Some?
    requires ProcessedUpdate(agents, a0, LaidOver(q1, q2), env).Some?
    ensures var a1 := Patched(a0, ProcessedUpdate(agents, a0, q1, env1).value);
      ProcessedUpdate(agents, a1, q2, env2).value.config
        == ProcessedUpdate(agents, a0, LaidOver(q1, q2), env).value.config
      <==> Composes(FinishFor(a0.kind, q1, env1), FinishFor(q1.kind, q2, env2),
        FinishFor(a0.kind, LaidOver(q1, q2), env),
                    q2.kind, Fields(a0.config), Fields(q1.config), Fields(q2.config), env1.key, env2.key)
  {
    var p1 := ProcessedUpdate(agents, a0, q1, env1).value;
    var a1 := Patched(a0, p1);
    ProcessedUpdateIs(agents, a0, q1, env1);
    ProcessedUpdateIs(agents, a1, q2, env2);
    ProcessedUpdateIs(agents, a0, LaidOver(q1, q2), env);
    var stored, r1, r2 := Fields(a0.config), Fields(q1.config), Fields(q2.config);
    var first := Fields(p1.config);
    if q2.kind.External? {
      ProviderIsThere(q2.kind, r2, first, env2.services);
    }
    ConfigsCompose(first, Fields(ProcessedUpdate(agents, a1, q2, env2).value.config),
                   Fields(ProcessedUpdate(agents, a0, LaidOver(q1, q2), env).value.config),
                   FinishFor(a0.kind, q1, env1), FinishFor(q1.kind, q2, env2),
                     FinishFor(a0.kind, LaidOver(q1, q2), env),
                   q1.kind, q2.kind, stored, r1, r2, env1.key, env2.key, env1.services);
  }

  // ----- The single update goes through when the two did -----

  lemma EffectiveByLookup(r: Object, a: Object, b: Object, key: string)
    requires Lookup(a, key) == Lookup(b, key)
    ensures Effective(r, Some(a), key) == Effective(r, Some(b), key)
  {
  }

  lemma SameRejection(kind: Kind, r: Object, a: Object, b: Object, services: Services)
    requires forall key :: key in {"preload_memory", "load_memory", "provider"} ==> Lookup(a, key) == Lookup(b, key)
    ensures Rejection(kind, r, Some(a), services) == Rejection(kind, r, Some(b), services)
  {
    assert Lookup(a, "preload_memory") == Lookup(b, "preload_memory");
    assert Lookup(a, "load_memory") == Lookup(b, "load_memory");
    assert Lookup(a, "provider") == Lookup(b, "provider");
    EffectiveByLookup(r, a, b, "preload_memory");
    EffectiveByLookup(r, a, b, "load_memory");
    EffectiveByLookup(r, a, b, "provider");
  }

  /** The second update sees what the merge alone would have left, as far as its
      checks look. */
  lemma ChecksSeeTheMerge(f: Finish, kind: Kind, stored: Object, r: Object, g: string, services: Services, key: string)
    requires key == "preload_memory" || key == "load_memory" || key == "provider"
    ensures Lookup(Dropped(ConfigAfter(f, kind, stored, r, g, services)), key)
      == Lookup(Merged(kind, r, Some(Dropped(stored)), g, services), key)
  {
    DroppedAt(ConfigAfter(f, kind, stored, r, g, services), key);
  }

  lemma OnceIsAccepted(f1: Finish, kind1: Kind, kind2: Kind, stored: Object, r1: Object, r2: Object, g1: string,
                       services: Services)
    requires Rejection(kind1, r1, Some(Dropped(stored)), services).None?
    requires Rejection(kind2, r2, Some(Dropped(ConfigAfter(f1, kind1, stored, r1, g1, services))), services).None?
    ensures Rejection(kind2, r1 + r2, Some(Dropped(stored)), services).None?
  {
    var first := Dropped(ConfigAfter(f1, kind1, stored, r1, g1, services));
    var merged := Merged(kind1, r1, Some(Dropped(stored)), g1, services);
    ChecksSeeTheMerge(f1, kind1, stored, r1, g1, services, "preload_memory");
    ChecksSeeTheMerge(f1, kind1, stored, r1, g1, services, "load_memory");
    ChecksSeeTheMerge(f1, kind1, stored, r1, g1, services, "provider");
    SameRejection(kind2, r2, first, merged, services);
    ComposedAccepted(kind1, kind2, Dropped(stored), r1, r2, g1, services);
  }

  /** What the kinds validate comes out the same either way. */
  lemma ValidatedFieldsAgree(f1: Finish, kind1: Kind, kind2: Kind, stored: Object, r1: Object, r2: Object, g1: string,
                             g2: string, services: Services, key: string)
    requires key == "tasks" || key == "sub_agents"
    ensures Lookup(Merged(kind2, r2, Some(Dropped(ConfigAfter(f1, kind1, stored, r1, g1, services))), g2,
      services), key)
      == Lookup(Merged(kind2, r1 + r2, Some(Dropped(stored)), g1, services), key)
  {
    var first := ConfigAfter(f1, kind1, stored, r1, g1, services);
    ConfigAfterAt(f1, kind1, stored, r1, g1, services, key);
    DroppedAt(first, key);
    DroppedAt(stored, key);
    MergedAt(kind2, Dropped(first), r2, g2, services, key);
    MergedAt(kind2, Dropped(stored), r1 + r2, g1, services, key);
  }

  lemma SameSubAgents(v: Value, known1: nat -> bool, known2: nat -> bool, services: Services)
    requires forall id :: known1(id) == known2(id)
    ensures ValidSubAgents(v, known1, services) == ValidSubAgents(v, known2, services)
  {
    if v.Arr? {
      forall i | 0 <= i < |v.items|
        ensures NamesAgent(v.items[i], known1, services) == NamesAgent(v.items[i], known2, services)
      {
      }
    }
  }

  lemma SameTasks(v: Value, known1: nat -> bool, known2: nat -> bool, services: Services)
    requires forall id :: known1(id) == known2(id)
    ensures v.Arr? ==> forall i :: 0 <= i < |v.items| ==>
      ValidTaskEntry(v.items[i], known1, services) == ValidTaskEntry(v.items[i], known2, services)
  {
  }

  lemma SameValidation(a: Object, b: Object, known1: nat -> bool, known2: nat -> bool, services: Services)
    requires Lookup(a, "tasks") == Lookup(b, "tasks") && Lookup(a, "sub_agents") == Lookup(b, "sub_agents")
    requires forall id :: known1(id) == known2(id)
    ensures ValidTasks(a, known1, services) == ValidTasks(b, known2, services)
    ensures ValidFlow(a, known1, services) == ValidFlow(b, known2, services)
    ensures ValidSubAgents(Get(a, "sub_agents"), known1, services)
      == ValidSubAgents(Get(b, "sub_agents"), known2, services)
  {
    SameTasks(Get(a, "tasks"), known1, known2, services);
    SameSubAgents(Get(a, "sub_agents"), known1, known2, services);
  }

  lemma ForUpdateGoesThrough(current1: Agent, current: Agent, q1: Agent, q2: Agent, help2: Help, help: Help,
                             merged2: Object, merged: Object)
    requires current1.kind == current.kind == q2.kind && help.services == help2.services
    requires forall id :: help.known(id) == help2.known(id)
    requires ForUpdate(current1, q2.(config := Document(merged2)), help2).Some?
    requires Lookup(merged2, "tasks") == Lookup(merged, "tasks")
      && Lookup(merged2, "sub_agents") == Lookup(merged, "sub_agents")
    requires q2.kind.A2A? && OrElse(q2.cardUrl, q1.cardUrl) != "" ==> help.card.Some?
    ensures ForUpdate(current, LaidOver(q1, q2).(config := Document(merged)), help).Some?
  {
    SameValidation(merged2, merged, help2.known, help.known, help.services);
  }

  lemma CardsWereFetched(agents: map<nat, Agent>, current: Agent, request: Agent, env: Env)
    requires ProcessedUpdate(agents, current, request, env).Some? && current.kind == request.kind
    ensures request.kind.A2A? && request.cardUrl != "" ==> env.card.Some?
    ensures request.kind.LLM? || request.kind.External? || request.kind.A2A? || KeyedKind(request.kind)
  {
  }

  lemma OnceGoesThrough(agents: map<nat, Agent>, a0: Agent, q1: Agent, q2: Agent, env1: Env, env2: Env, env: Env)
    requires !q1.kind.Unset? && SameAnswers(env1, env2, env, q2) && a0.kind == q1.kind == q2.kind
    requires ProcessedUpdate(agents, a0, q1, env1).Some?
    requires ProcessedUpdate(agents, Patched(a0, ProcessedUpdate(agents, a0, q1, env1).value), q2, env2).Some?
    ensures ProcessedUpdate(agents, a0, LaidOver(q1, q2), env).Some?
  {
    var a1 := Patched(a0, ProcessedUpdate(agents, a0, q1, env1).value);
    var stored, r1, r2, sv := Fields(a0.config), Fields(q1.config), Fields(q2.config), env1.services;
    var f1 := FinishFor(a0.kind, q1, env1);
    ProcessedUpdateIs(agents, a0, q1, env1);
    ProcessedUpdateIs(agents, a1, q2, env2);
    NullIsEmpty(q2.kind, r1 + r2, env.key, sv);
    NullIsEmpty(q2.kind, r2, env2.key, sv);
    OnceIsAccepted(f1, q1.kind, q2.kind, stored, r1, r2, env1.key, sv);
    ValidatedFieldsAgree(f1, q1.kind, q2.kind, stored, r1, r2, env1.key, env2.key, sv, "tasks");
    ValidatedFieldsAgree(f1, q1.kind, q2.kind, stored, r1, r2, env1.key, env2.key, sv, "sub_agents");
    CardsWereFetched(agents, a0, q1, env1);
    CardsWereFetched(agents, a1, q2, env2);
    ForUpdateGoesThrough(a1, a0, q1, q2, HelpFor(agents, env2), HelpFor(agents, env),
      Merged(q2.kind, r2, Some(Dropped(Fields(a1.config))), env2.key, sv),
      Merged(q2.kind, r1 + r2, Some(Dropped(stored)), env.key, sv));
  }

  predicate SameConfig(a: Option<Agent>, b: Option<Agent>) {
    a.Some? && b.Some? && a.value.config == b.value.config
  }

  /** While the agent's kind stays: when two service updates go through, so does the
      one with the second request laid over the first, and they leave the same
      config exactly under the conditions named. */
  lemma SameKindUpdatesCompose(agents: map<nat, Agent>, a0: Agent, q1: Agent, q2: Agent, env1: Env, env2: Env, env: Env)
    requires !q1.kind.Unset? && SameAnswers(env1, env2, env, q2) && a0.kind == q1.kind == q2.kind
    requires env1.key != "" && env1.typeKey != ""
    requires ProcessedUpdate(agents, a0, q1, env1).Some?
    requires ProcessedUpdate(agents, Patched(a0, ProcessedUpdate(agents, a0, q1, env1).value), q2, env2).Some?
    ensures var a1 := Patched(a0, ProcessedUpdate(agents, a0, q1, env1).value);
      var stored, r1, r2 := Fields(a0.config), Fields(q1.config), Fields(q2.config);
      && ProcessedUpdate(agents, a0, LaidOver(q1, q2), env).Some?
      && (SameConfig(ProcessedUpdate(agents, a1, q2, env2), ProcessedUpdate(agents, a0, LaidOver(q1, q2), env))
          <==> && !LosesProvider(q2.kind, r1, r2)
               && !ForgetsExpansion(stored, r1, r2, "custom_tools")
               && !ForgetsExpansion(stored, r1, r2, "custom_mcp_servers")
               && (KeyedKind(q2.kind) || !ForgetsKey(stored, r1, r2, env1.key))
               && (q2.kind.A2A? ==> !OverridesCard(q1.cardUrl, q2.cardUrl, env1.card, r2)))
  {
    OnceGoesThrough(agents, a0, q1, q2, env1, env2, env);
    ProcessedUpdatesCompose(agents, a0, q1, q2, env1, env2, env);
    CardsWereFetched(agents, a0, q1, env1);
    CardsWereFetched(agents, Patched(a0, ProcessedUpdate(agents, a0, q1, env1).value), q2, env2);
    SameKindComposes(q2.kind, q1.cardUrl, q2.cardUrl, env1.card, env2.card, Fields(a0.config), Fields(q1.config),
      Fields(q2.config),
                     env1.key, env2.key, env1.typeKey, env2.typeKey);
  }

  // ----- In the tables -----

  lemma GotIs(s: Store, id: nat, env: Env, catalog: Catalog)
    requires Got(s, id, env, catalog).1.Some?
    ensures id in s.agents
    ensures var base := Sanitized(s.agents[id]);
      Got(s, id, env, catalog).1.value == base.(config := Hydrated(base.config, catalog, env.services))
  {
    RepairSurvivesPartialWrite(s.agents[id]);
  }

  lemma LinkKeepsConfig(s: Store, id: nat, agent: Agent, bot: nat, env: Env)
    requires id in s.agents && s.agents[id] == agent
    ensures var (t, reply) := Link(s, id, agent, bot, env);
      && id in t.agents && t.agents[id].config == agent.config
      && t.agents[id].kind == agent.kind
      && (reply.Replied? ==> reply.agent.config == agent.config && reply.agent.kind == agent.kind)
  {
  }

  /** The bot step rewrites neither the config nor the kind. */
  lemma BotStepKeepsConfig(s: Store, id: nat, agent: Agent, env: Env)
    requires id in s.agents && s.agents[id] == agent && BotForUpdated(s, id, agent, env).1.Replied?
    ensures var (t, reply) := BotForUpdated(s, id, agent, env);
      && id in t.agents && t.agents[id].config == agent.config && t.agents[id].kind == agent.kind
      && reply.agent.config == agent.config && reply.agent.kind == agent.kind
  {
    if agent.botId.None? {
      var (s1, bot) := InsertedBot(s, BotFor(id, agent, env.services), env.botInsert);
      if bot.Some? {
        LinkKeepsConfig(s1, id, agent, bot.value, env);
      }
    } else {
      var s1 := UpdatedBot(s, agent.botId.value, BotFor(id, agent, env.services), env.botWrite).0;
      LinkKeepsConfig(s1, id, agent, agent.botId.value, env);
    }
  }

  lemma WrittenConfigStays(s: Store, id: nat, processed: Option<Agent>, env: Env)
    requires WrittenBack(s, id, processed, env).1.Replied?
    requires processed.Some? ==> processed.value.config.Document?
    ensures processed.Some? && id in WrittenBack(s, id, processed, env).0.agents
    ensures WrittenBack(s, id, processed, env).0.agents[id].config == processed.value.config
    ensures WrittenBack(s, id, processed, env).1.agent.config == processed.value.config
    ensures !processed.value.kind.Unset? ==>
      && WrittenBack(s, id, processed, env).0.agents[id].kind == processed.value.kind
      && WrittenBack(s, id, processed, env).1.agent.kind == processed.value.kind
  {
    var (t, row) := UpdatedAgent(s, id, processed.value, env.write);
    BotStepKeepsConfig(t, id, row.value, env);
  }

  /** The exact config a successful update stores, by kind: from the repaired row,
      whatever the catalogs answered on the way in and whatever the bot step did. */
  lemma StoredAfterUpdate(s: Store, request: Request, id: nat, env: Env, catalog: Catalog)
    requires Updated(s, request, id, env, catalog).1.Replied?
    ensures id in s.agents
    ensures var t := Updated(s, request, id, env, catalog).0;
      var base := Sanitized(s.agents[id]);
      && id in t.agents
      && t.agents[id].config == Document(ConfigAfter(
           FinishOf(base.kind, request.kind, request.cardUrl, env.card, env.typeKey),
           request.kind, Fields(base.config), Fields(request.config), env.key, env.services))
      && (!request.kind.Unset? ==> t.agents[id].kind == request.kind)
  {
    var (s1, current) := Got(s, id, env, catalog);
    var base := Sanitized(s.agents[id]);
    GotIs(s, id, env, catalog);
    ProcessedUpdateIs(s1.agents, current.value, AsAgent(request), env);
    var f := FinishOf(base.kind, request.kind, request.cardUrl, env.card, env.typeKey);
    if base.config.Document? {
      ExpansionIsIgnored(f, request.kind, base.config.fields, Fields(request.config), env.key, env.services, catalog,
        env.services);
    }
    WrittenConfigStays(s1, id, ProcessedUpdate(s1.agents, current.value, AsAgent(request), env), env);
  }

  /** And the one a successful create stores. */
  lemma ProcessedCreateIs(agents: map<nat, Agent>, request: Agent, env: Env)
    requires ProcessedCreate(agents, request, env).Some?
    ensures var merged := Merged(request.kind, Fields(request.config), None, env.key, env.services);
      ProcessedCreate(agents, request, env).value.config == Document(
        if KeyedKind(request.kind) then merged["api_key" := Str(env.typeKey)]
        else if request.kind.A2A? then merged["agent_card" := Obj(env.card.value)]
        else merged)
  {
  }

  /** A workflow agent is created under a generated key, whatever key was sent. */
  lemma CreatedKeyIsGenerated(agents: map<nat, Agent>, env: Env, request: Agent)
    requires request.kind.Workflow? && request.config == Document(map["api_key" := Str("new")])
    ensures ProcessedCreate(agents, request, env).Some?
    ensures Get(Fields(ProcessedCreate(agents, request, env).value.config), "api_key") == Str(env.typeKey)
  {
    assert Rejection(Workflow, map["api_key" := Str("new")], None, env.services).None?;
  }

  // ----- A client that sends back what it read -----

  /** An expansion that is sent back is stored as it was read. */
  lemma EchoAt(f: Finish, kind: Kind, stored: Object, g: string, services: Services, catalog: Catalog, known: Services,
               key: string)
    requires IdsKey(key).Some?
    ensures var echoed := Expanded(stored, catalog, known);
      Lookup(ConfigAfter(f, kind, stored, echoed, g, services), key) == Lookup(echoed, key)
  {
    ExpandOnlyAdds(stored, catalog, known);
    ConfigAfterAt(f, kind, stored, Expanded(stored, catalog, known), g, services, key);
  }

  lemma AddedKey(stored: Object, catalog: Catalog, known: Services) returns (key: string)
    requires Expanded(stored, catalog, known) != stored
    ensures key in Expanded(stored, catalog, known) && key !in stored && IdsKey(key).Some?
  {
    ExpandOnlyAdds(stored, catalog, known);
    var echoed := Expanded(stored, catalog, known);
    if forall key :: key in echoed ==> key in stored {
      SameMap(echoed, stored);
    }
    key :| key in echoed && key !in stored;
  }

  /** Sending back the expanded config leaves the same as sending back the stored one
      exactly when the read expanded nothing. */
  lemma EchoStoresExpansion(f: Finish, kind: Kind, stored: Object, g: string, services: Services, catalog: Catalog,
                            known: Services)
    ensures var echoed := Expanded(stored, catalog, known);
      echoed == stored
      <==> ConfigAfter(f, kind, stored, echoed, g, services) == ConfigAfter(f, kind, stored, stored, g, services)
  {
    var echoed := Expanded(stored, catalog, known);
    var with, plain := ConfigAfter(f, kind, stored, echoed, g, services),
      ConfigAfter(f, kind, stored, stored, g, services);
    ExpandOnlyAdds(stored, catalog, known);
    if echoed != stored {
      var key := AddedKey(stored, catalog, known);
      EchoAt(f, kind, stored, g, services, catalog, known, key);
      ConfigAfterAt(f, kind, stored, stored, g, services, key);
      assert Lookup(with, key) != Lookup(plain, key);
    }
  }

  /** And every later read shows that copy, whatever the catalogs hold by then. */
  lemma EchoFreezes(f: Finish, kind: Kind, stored: Object, g: string, services: Services, catalog: Catalog,
                    known: Services, later: Catalog, knownLater: Services, key: string)
    requires IdsKey(key).Some? && key in Expanded(stored, catalog, known)
    ensures var after := ConfigAfter(f, kind, stored, Expanded(stored, catalog, known), g, services);
      Lookup(Expanded(after, later, knownLater), key) == Lookup(Expanded(stored, catalog, known), key)
  {
    EchoAt(f, kind, stored, g, services, catalog, known, key);
    ExpandOnlyAdds(ConfigAfter(f, kind, stored, Expanded(stored, catalog, known), g, services), later, knownLater);
  }

  /** A successful read leaves the row it repaired, which is read unchanged next. */
  lemma RowAfterRead(s: Store, id: nat, env: Env, catalog: Catalog)
    requires Got(s, id, env, catalog).1.Some?
    ensures id in s.agents && id in Got(s, id, env, catalog).0.agents
    ensures var base := Sanitized(s.agents[id]);
      Sanitized(Got(s, id, env, catalog).0.agents[id]) == base
  {
    RepairSurvivesPartialWrite(s.agents[id]);
    SanitizedIsFixpoint(s.agents[id]);
  }

  /** In the tables: an update that sends the config of the read before it stores the
      expansion that read showed. */
  lemma EchoedReadIsStored(s: Store, id: nat, env: Env, catalog: Catalog, q: Request, env2: Env, catalog2: Catalog,
                           key: string)
    requires Got(s, id, env, catalog).1.Some? && q.config == Got(s, id, env, catalog).1.value.config
    requires q.config.Document? && IdsKey(key).Some?
    requires Updated(Got(s, id, env, catalog).0, q, id, env2, catalog2).1.Replied?
    ensures id in Updated(Got(s, id, env, catalog).0, q, id, env2, catalog2).0.agents
    ensures Lookup(Fields(Updated(Got(s, id, env, catalog).0, q, id, env2, catalog2).0.agents[id].config), key)
      == Lookup(q.config.fields, key)
  {
    var t := Got(s, id, env, catalog).0;
    GotIs(s, id, env, catalog);
    RowAfterRead(s, id, env, catalog);
    StoredAfterUpdate(t, q, id, env2, catalog2);
    var base := Sanitized(s.agents[id]);
    EchoAt(FinishOf(base.kind, q.kind, q.cardUrl, env2.card, env2.typeKey), q.kind, base.config.fields, env2.key,
      env2.services,
           catalog, env.services, key);
  }

  // ----- Flow agents in replies -----

  lemma ValidatedFlowHoldsList(current: Agent, request: Agent, help: Help, config: Object)
    requires request.config == Document(config) && ForUpdate(current, request, help).Some?
    requires IsFlow(request.kind) && !current.kind.External? && !current.kind.A2A?
    ensures HoldsList(Fields(ForUpdate(current, request, help).value.config), "sub_agents")
  {
    OverlayOnItself(config, KeptKey(Fields(current.config), help.key));
  }

  lemma ValidatedFlowIsRunnable(agents: map<nat, Agent>, current: Agent, request: Agent, env: Env)
    requires ProcessedUpdate(agents, current, request, env).Some?
    requires IsFlow(request.kind) && !current.kind.External? && !current.kind.A2A?
    ensures HoldsList(Fields(ProcessedUpdate(agents, current, request, env).value.config), "sub_agents")
  {
    var existing := if current.config.NullText? then None else Some(Dropped(Fields(current.config)));
    var config := Processed(request.kind, Fields(request.config), existing, env.key, env.services).value;
    ValidatedFlowHoldsList(current, request.(config := Document(config)), HelpFor(agents, env), config);
  }

  lemma UpdatedFlowIsRunnable(agents: map<nat, Agent>, current: Agent, request: Agent, env: Env)
    requires ProcessedUpdate(agents, current, request, env).Some?
    ensures var patch := ProcessedUpdate(agents, current, request, env).value;
      Runnable(patch) <==>
        !(&& IsFlow(request.kind) && (current.kind.External? || current.kind.A2A?)
          && !HoldsList(if "sub_agents" in Fields(request.config) then Fields(request.config)
            else Fields(current.config), "sub_agents"))
  {
    var stored, r := Fields(current.config), Fields(request.config);
    ProcessedUpdateIs(agents, current, request, env);
    ConfigAfterAt(FinishOf(current.kind, request.kind, request.cardUrl, env.card, env.typeKey),
                  request.kind, stored, r, env.key, env.services, "sub_agents");
    if IsFlow(request.kind) && !current.kind.External? && !current.kind.A2A? {
      ValidatedFlowIsRunnable(agents, current, request, env);
    }
  }

  /** A reply to an update shows a flow agent without sub-agents exactly when an
      external or a2a agent is updated to a flow kind, which no processor validates,
      and neither the request nor the stored config names any. */
  lemma UpdateReplyIsRunnable(s: Store, request: Request, id: nat, env: Env, catalog: Catalog)
    requires Updated(s, request, id, env, catalog).1.Replied? && !request.kind.Unset?
    ensures id in s.agents
    ensures var base := Sanitized(s.agents[id]);
      var r := Fields(request.config);
      Runnable(Updated(s, request, id, env, catalog).1.agent) <==>
        !(&& IsFlow(request.kind) && (base.kind.External? || base.kind.A2A?)
          && !HoldsList(if "sub_agents" in r then r else Fields(base.config), "sub_agents"))
  {
    var (s1, current) := Got(s, id, env, catalog);
    GotIs(s, id, env, catalog);
    var base := Sanitized(s.agents[id]);
    var processed := ProcessedUpdate(s1.agents, current.value, AsAgent(request), env);
    ProcessedUpdateIs(s1.agents, current.value, AsAgent(request), env);
    WrittenConfigStays(s1, id, processed, env);
    UpdatedFlowIsRunnable(s1.agents, current.value, AsAgent(request), env);
    if base.config.Document? {
      ExpandOnlyAdds(base.config.fields, catalog, env.services);
      assert !Expandable(base.config.fields, "sub_agents");
    }
  }
}
