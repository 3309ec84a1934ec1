/** Two updates of one agent against the single one that sends both at once. Each
    update reads the agent first, so the second one may start from a row the read
    has repaired. */
module UpdatesInARow {
  import opened Wrappers
  import opened Json
  import opened AgentModel
  import opened ConfigProcessor
  import opened ConfigMerge
  import opened TypeProcessors
  import opened ToolCatalog
  import opened ReadPath
  import opened AgentTables
  import opened AgentService
  import opened AgentRuns
  import opened ServiceMerge

  // ----- The key and the card -----

  function TextOr(v: Value, otherwise: string): string {
    if v.Str? && v.s != "" then v.s else otherwise
  }

  /** What has to hold of the keys sent. A kind that keeps its key on both ways is
      safe. A kind that keeps it in the first update only loses a key sent with that
      update; one that keeps it in the single update only loses every key sent; and
      one that keeps it in the second update only loses a key sent with the second.
      Otherwise a blank key must not cover up one sent before. */
  predicate KeyStays(f1: Finish, f2: Finish, once: Finish, stored: Object, r1: Object, r2: Object, g1: string,
                     g2: string)
  {
    var first, neither := ChosenKey(r1, Some(stored), g1), ChosenKey(map[], Some(stored), g1);
    if f1.Keyed? && f2.Keyed? then true
    else if f1.Keyed? then
      HoldsText(r2, "api_key")
      || TextOr(KeptKey(stored, f1.generated), g2) == (if "api_key" in r2 then neither else first)
    else if once.Keyed? then
      KeptKey(stored, once.generated) == if !f2.Keyed? && HoldsText(r2, "api_key") then r2["api_key"] else Str(first)
    else if "api_key" in r2 then
      if f2.Keyed? then first == ChosenKey(r2, Some(stored), g1) else HoldsText(r2, "api_key") || first == neither
    else true
  }

  /** The two updates and the single one go through the same kinds of processors, as
      far as keys are concerned (`KindsFit`). */
  predicate KeysFit(f1: Finish, f2: Finish, once: Finish) {
    && (f1.Keyed? ==> f1.generated != "" && (f2.Keyed? <==> once.Keyed?))
    && (f1.Keyed? && once.Keyed? ==> once.generated == f1.generated)
  }

  lemma KeyStaysExactly(f1: Finish, f2: Finish, once: Finish, stored: Object, r1: Object, r2: Object, g1: string,
                        g2: string)
    requires g1 != "" && KeysFit(f1, f2, once)
    ensures KeysAgree(f1, f2, once, stored, r1, r2, g1, g2) <==> KeyStays(f1, f2, once, stored, r1, r2, g1, g2)
  {
    var before := Lookup(stored, "api_key");
    assert SettledKey(Plain, before, r1, g1) == Str(ChosenKey(r1, Some(stored), g1));
    assert SettledKey(Plain, before, r1 + r2, g1) == Str(ChosenKey(r1 + r2, Some(stored), g1));
    assert ChosenKey(r1 + r2, Some(stored), g1)
      == if "api_key" in r2 then ChosenKey(r2, Some(stored), g1) else ChosenKey(r1, Some(stored), g1);
  }

  /** The request sends a key, and not the one that is stored. */
  predicate Renames(stored: Object, r: Object) {
    HoldsText(r, "api_key") && Get(r, "api_key") != Get(stored, "api_key")
  }

  /** On a row that has a key, as every row of a sound store has, no generated key is
      involved. */
  lemma KeyStaysOnRowsWithKey(f1: Finish, f2: Finish, once: Finish, stored: Object, r1: Object, r2: Object, g1: string,
                              g2: string)
    requires HoldsText(stored, "api_key")
    ensures KeyStays(f1, f2, once, stored, r1, r2, g1, g2) <==>
      if f1.Keyed? && f2.Keyed? then true
      else if f1.Keyed? then "api_key" in r2 || !Renames(stored, r1)
      else if once.Keyed? then !Renames(stored, if !f2.Keyed? && HoldsText(r2, "api_key") then r2 else r1)
      else if "api_key" !in r2 then true
      else if f2.Keyed? && HoldsText(r2, "api_key") then
        Get(r2, "api_key") == Get(if HoldsText(r1, "api_key") then r1 else stored, "api_key")
      else HoldsText(r2, "api_key") || !Renames(stored, r1)
  {
  }

  /** What has to hold of the cards: one that is fetched on one way only must be the
      card that is sent or stored on the other. */
  predicate CardStays(f1: Finish, f2: Finish, once: Finish, stored: Object, r1: Object, r2: Object) {
    var sent := if "agent_card" in r1 then Lookup(r1, "agent_card") else Lookup(stored, "agent_card");
    if f2.Carded? then once.Carded? || Some(Obj(f2.card)) == if "agent_card" in r2 then Lookup(r2, "agent_card")
      else sent
    else if once.Carded? then
      Some(Obj(once.card)) == if "agent_card" in r2 then Lookup(r2, "agent_card")
        else if f1.Carded? then Some(Obj(f1.card)) else sent
    else f1.Carded? ==> "agent_card" in r2 || Some(Obj(f1.card)) == sent
  }

  lemma CardStaysExactly(f1: Finish, f2: Finish, once: Finish, stored: Object, r1: Object, r2: Object)
    requires f2.Carded? && once.Carded? ==> f2.card == once.card
    ensures CardsAgree(f1, f2, once, stored, r1, r2) <==> CardStays(f1, f2, once, stored, r1, r2)
  {
  }

  // ----- The repair between -----

  /** The first update leaves a flow agent that names no sub-agents. */
  predicate RepairsBetween(kind: Kind, stored: Object, r1: Object) {
    IsFlow(kind) && !HoldsList(if "sub_agents" in r1 then r1 else stored, "sub_agents")
  }

  /** The repair leaves the key as the first update left it. */
  predicate KeepsValue(stored: Object, r1: Object, key: string) {
    || (IdsKey(key).Some? && (var ids := IdsKey(key).value; HoldsList(if ids in r1 then r1 else stored, ids)))
    || (if key in r1 then !r1[key].Null? else key in stored && !Expandable(stored, key) && !stored[key].Null?)
  }

  /** What the repair writes or takes away is written again by the second update, or
      was nothing to begin with. */
  predicate RepairIsHidden(stored: Object, r1: Object, r2: Object) {
    && ("sub_agents" in r2 || ("sub_agents" !in r1 && "sub_agents" !in stored))
    && forall key :: key in REPAIRED_KEYS && key != "api_key" ==> key in r2 || KeepsValue(stored, r1, key)
  }

  /** The keys a repair changes. */
  predicate RepairChanges(c: Object, key: string) {
    || (key == "sub_agents" && key in c)
    || (key in REPAIRED_KEYS && key != "api_key" && Get(c, key).Null? && !Expandable(c, key))
  }

  lemma RepairKeepsLists(c: Object, key: string)
    ensures Expandable(Repaired(c), key) <==> Expandable(c, key)
  {
    RepairKeepsStoredKeys(c);
  }

  lemma RepairedAt(c: Object, key: string)
    requires HoldsText(c, "api_key")
    ensures Lookup(Repaired(c), key) == Lookup(c, key) <==> !RepairChanges(c, key)
    ensures Lookup(Repaired(c), key) ==
      if key == "sub_agents" then None else if RepairChanges(c, key) then Some(Placeholder(key)) else Lookup(c, key)
  {
    if key in c && key in REPAIRED_KEYS {
      assert key != "sub_agents";
    }
  }

  lemma FieldShows(f: Finish, kind: Kind, a: Option<Value>, b: Option<Value>, copied: bool, r: Object, g: string,
                   services: Services, key: string)
    requires a == b || (key != "api_key" && key != "agent_card" && key != "provider" && !copied)
    ensures FieldAfter(f, kind, a, copied, r, g, services, key) == FieldAfter(f, kind, b, copied, r, g, services, key)
      <==> key in r || a == b
  {
  }

  /** `read` differs from `c` on the keys a repair changes. */
  predicate ReadsAs(c: Object, read: Object, key: string) {
    && (Expandable(read, key) <==> Expandable(c, key))
    && (Lookup(read, key) == Lookup(c, key) <==> !RepairChanges(c, key))
  }

  lemma RepairReadsAs(c: Object, key: string)
    requires HoldsText(c, "api_key")
    ensures ReadsAs(c, Repaired(c), key)
  {
    RepairKeepsLists(c, key);
    RepairedAt(c, key);
  }

  /** After the second update the repair shows on a key exactly if it changed the key
      and the update does not send it. */
  lemma RepairShowsAt(c: Object, read: Object, f: Finish, kind: Kind, r: Object, g: string, services: Services,
                      key: string)
    requires ReadsAs(c, read, key)
    ensures Lookup(ConfigAfter(f, kind, read, r, g, services), key)
      == Lookup(ConfigAfter(f, kind, c, r, g, services), key)
      <==> key in r || !RepairChanges(c, key)
  {
    ConfigAfterAt(f, kind, c, r, g, services, key);
    ConfigAfterAt(f, kind, read, r, g, services, key);
    FieldShows(f, kind, Lookup(read, key), Lookup(c, key), Expandable(c, key), r, g, services, key);
  }

  /** The first update's own key is text unless its kind keeps the stored one. */
  lemma FirstHoldsKey(f: Finish, kind: Kind, stored: Object, r: Object, g: string, services: Services)
    requires g != "" && !f.Keyed?
    ensures HoldsText(ConfigAfter(f, kind, stored, r, g, services), "api_key")
  {
    ConfigAfterAt(f, kind, stored, r, g, services, "api_key");
  }

  lemma RepairChangesAt(f: Finish, kind: Kind, stored: Object, r: Object, g: string, services: Services, key: string)
    requires key == "sub_agents" || (key in REPAIRED_KEYS && key != "api_key")
    ensures RepairChanges(ConfigAfter(f, kind, stored, r, g, services), key)
      <==> if key == "sub_agents" then key in r || key in stored else !KeepsValue(stored, r, key)
  {
    var c := ConfigAfter(f, kind, stored, r, g, services);
    ConfigIsAfter(f, kind, stored, r, g, services);
    ConfigAfterAt(f, kind, stored, r, g, services, key);
    if IdsKey(key).Some? {
      ListsCarryOver(c, f, kind, stored, r, g, services, key);
    }
  }

  lemma HiddenIsNoChange(f1: Finish, kind1: Kind, stored: Object, r1: Object, r2: Object, g1: string,
                         services: Services)
    ensures var c := ConfigAfter(f1, kind1, stored, r1, g1, services);
      RepairIsHidden(stored, r1, r2) <==> forall key :: key in r2 || !RepairChanges(c, key)
  {
    var c := ConfigAfter(f1, kind1, stored, r1, g1, services);
    forall key | key == "sub_agents" || (key in REPAIRED_KEYS && key != "api_key")
      ensures RepairChanges(c, key)
        <==> if key == "sub_agents" then key in r1 || key in stored else !KeepsValue(stored, r1, key)
    {
      RepairChangesAt(f1, kind1, stored, r1, g1, services, key);
    }
    if forall key :: key in r2 || !RepairChanges(c, key) {
      assert "sub_agents" in r2 || !RepairChanges(c, "sub_agents");
      forall key | key in REPAIRED_KEYS && key != "api_key" ensures key in r2 || KeepsValue(stored, r1, key) {
        assert key in r2 || !RepairChanges(c, key);
      }
    }
  }

  /** The repair is hidden exactly if no key shows it. */
  lemma RepairShowsExactly(f1: Finish, kind1: Kind, f2: Finish, kind2: Kind, stored: Object, r1: Object, r2: Object,
                           g1: string, g2: string, services: Services)
    requires g1 != "" && !f1.Keyed?
    ensures var c := ConfigAfter(f1, kind1, stored, r1, g1, services);
      ConfigAfter(f2, kind2, Repaired(c), r2, g2, services) == ConfigAfter(f2, kind2, c, r2, g2, services)
      <==> RepairIsHidden(stored, r1, r2)
  {
    var c := ConfigAfter(f1, kind1, stored, r1, g1, services);
    var with, without := ConfigAfter(f2, kind2, Repaired(c), r2, g2, services),
      ConfigAfter(f2, kind2, c, r2, g2, services);
    FirstHoldsKey(f1, kind1, stored, r1, g1, services);
    SameLookups(with, without);
    forall key ensures Lookup(with, key) == Lookup(without, key) <==> key in r2 || !RepairChanges(c, key) {
      RepairReadsAs(c, key);
      RepairShowsAt(c, Repaired(c), f2, kind2, r2, g2, services, key);
    }
    HiddenIsNoChange(f1, kind1, stored, r1, r2, g1, services);
  }

  // ----- Both differences together -----

  /** Where the repair shows, two updates without it would leave what one leaves. */
  lemma ChangedKeysAgree(c: Object, v: Verdict, kind2: Kind, stored: Object, r1: Object, r2: Object, f1: Finish,
                         f2: Finish, once: Finish, kind1: Kind, g1: string, g2: string, services: Services, key: string)
    requires IsAfter(c, f1, kind1, stored, r1, g1, services)
    requires v == VerdictOf(f1, f2, once, kind2, stored, r1, r2, g1, g2) && RepairChanges(c, key)
    ensures AgreesAt(v, key)
  {
    if IdsKey(key).Some? {
      ListsCarryOver(c, f1, kind1, stored, r1, g1, services, key);
    }
  }

  lemma DifferencesAddUp(two: Object, direct: Object, one: Object)
    requires forall key :: Lookup(two, key) == Lookup(direct, key) || Lookup(direct, key) == Lookup(one, key)
    ensures two == one <==> two == direct && direct == one
  {
    SameLookups(two, one);
    SameLookups(two, direct);
    SameLookups(direct, one);
    if two == one {
      forall key ensures Lookup(two, key) == Lookup(direct, key) && Lookup(direct, key) == Lookup(one, key) {
        assert Lookup(two, key) == Lookup(one, key);
      }
    }
  }

  lemma RepairedConfigsCompose(c: Object, two: Object, one: Object, f1: Finish, f2: Finish, once: Finish, kind1: Kind,
                               kind2: Kind, stored: Object, r1: Object, r2: Object, g1: string, g2: string,
                               services: Services)
    requires g1 != "" && !f1.Keyed?
    requires c == ConfigAfter(f1, kind1, stored, r1, g1, services)
    requires two == ConfigAfter(f2, kind2, Repaired(c), r2, g2, services)
    requires one == ConfigAfter(once, kind2, stored, r1 + r2, g1, services)
    requires kind2.External? ==> "provider" in r2 || "provider" in c
    ensures two == one <==> Composes(f1, f2, once, kind2, stored, r1, r2, g1, g2) && RepairIsHidden(stored, r1, r2)
  {
    var direct := ConfigAfter(f2, kind2, c, r2, g2, services);
    var v := VerdictOf(f1, f2, once, kind2, stored, r1, r2, g1, g2);
    ConfigIsAfter(f1, kind1, stored, r1, g1, services);
    ConfigIsAfter(f2, kind2, c, r2, g2, services);
    ConfigIsAfter(once, kind2, stored, r1 + r2, g1, services);
    AftersCompose(c, direct, one, f1, f2, once, kind1, kind2, stored, r1, r2, g1, g2, services, v);
    FirstHoldsKey(f1, kind1, stored, r1, g1, services);
    forall key ensures Lookup(two, key) == Lookup(direct, key) || Lookup(direct, key) == Lookup(one, key) {
      RepairReadsAs(c, key);
      RepairShowsAt(c, Repaired(c), f2, kind2, r2, g2, services, key);
      assert Decides(v, Lookup(direct, key), Lookup(one, key), key);
      if RepairChanges(c, key) {
        ChangedKeysAgree(c, v, kind2, stored, r1, r2, f1, f2, once, kind1, g1, g2, services, key);
      }
    }
    DifferencesAddUp(two, direct, one);
    ConfigsCompose(c, direct, one, f1, f2, once, kind1, kind2, stored, r1, r2, g1, g2, services);
    RepairShowsExactly(f1, kind1, f2, kind2, stored, r1, r2, g1, g2, services);
  }

  // ----- In the tables -----

  /** Both requests sent at once, the second laid over the first. */
  function Together(q1: Request, q2: Request): Request {
    q2.(cardUrl := OrElse(q2.cardUrl, q1.cardUrl), config := Document(Fields(q1.config) + Fields(q2.config)))
  }

  /** The kind the second update finds. */
  function KindBetween(stored: Object, q1: Request): Kind {
    if RepairsBetween(q1.kind, stored, Fields(q1.config)) then LLM else q1.kind
  }

  function FinishOn(from: Kind, request: Request, env: Env): Finish {
    FinishOf(from, request.kind, request.cardUrl, env.card, env.typeKey)
  }

  lemma KindsFit(from: Kind, between: Kind, q1: Request, q2: Request, env1: Env, env2: Env, env: Env)
    requires env1.typeKey != "" && env.typeKey == env1.typeKey
    requires FinishOn(from, q1, env1).Keyed? ==> KeyedKind(q1.kind) && between == q1.kind
    ensures KeysFit(FinishOn(from, q1, env1), FinishOn(between, q2, env2), FinishOn(from, Together(q1, q2), env))
  {
  }

  lemma KeyedKindsAre(agents: map<nat, Agent>, current: Agent, request: Agent, env: Env)
    requires ProcessedUpdate(agents, current, request, env).Some?
    requires FinishOf(current.kind, request.kind, request.cardUrl, env.card, env.typeKey).Keyed?
    ensures KeyedKind(request.kind) && !current.kind.External? && !current.kind.A2A?
  {
  }

  lemma ValidatedFlowNamesAgents(agents: map<nat, Agent>, current: Agent, q: Request, env: Env)
    requires ProcessedUpdate(agents, current, AsAgent(q), env).Some?
    requires IsFlow(q.kind) && !current.kind.External? && !current.kind.A2A?
    ensures !RepairsBetween(q.kind, Fields(current.config), Fields(q.config))
  {
    var f := FinishOf(current.kind, q.kind, q.cardUrl, env.card, env.typeKey);
    ValidatedFlowIsRunnable(agents, current, AsAgent(q), env);
    ProcessedUpdateIs(agents, current, AsAgent(q), env);
    ConfigAfterAt(f, q.kind, Fields(current.config), Fields(q.config), env.key, env.services, "sub_agents");
  }

  /** An update that is answered with a kind that keeps its key was validated. */
  lemma KeyedIsValidated(s: Store, q: Request, id: nat, env: Env, catalog: Catalog)
    requires Updated(s, q, id, env, catalog).1.Replied?
    ensures id in s.agents
    ensures var base := Sanitized(s.agents[id]);
      FinishOn(base.kind, q, env).Keyed? ==>
        KeyedKind(q.kind) && !RepairsBetween(q.kind, Fields(base.config), Fields(q.config))
  {
    GotIs(s, id, env, catalog);
    var (s1, current) := Got(s, id, env, catalog);
    var base := Sanitized(s.agents[id]);
    if FinishOn(base.kind, q, env).Keyed? {
      KeyedKindsAre(s1.agents, current.value, AsAgent(q), env);
      if IsFlow(q.kind) {
        ValidatedFlowNamesAgents(s1.agents, current.value, q, env);
        if base.config.Document? {
          ExpandOnlyAdds(base.config.fields, catalog, env.services);
          assert !Expandable(base.config.fields, "sub_agents");
        }
      }
    }
  }

  /** Only an external or a2a agent can be left without sub-agents. */
  lemma RepairedWasUnvalidated(s: Store, q: Request, id: nat, env: Env, catalog: Catalog)
    requires Updated(s, q, id, env, catalog).1.Replied?
    ensures id in s.agents
    ensures var base := Sanitized(s.agents[id]);
      RepairsBetween(q.kind, Fields(base.config), Fields(q.config)) ==> base.kind.External? || base.kind.A2A?
  {
    KeyedIsValidated(s, q, id, env, catalog);
  }

  lemma ProviderIsBetween(s: Store, q: Request, id: nat, env: Env, catalog: Catalog)
    requires Updated(s, q, id, env, catalog).1.Replied? && q.kind.External?
    ensures id in s.agents && ("provider" in Fields(q.config) || "provider" in Fields(Sanitized(s.agents[id]).config))
  {
    GotIs(s, id, env, catalog);
    var (s1, current) := Got(s, id, env, catalog);
    var base := Sanitized(s.agents[id]);
    ProcessedUpdateIs(s1.agents, current.value, AsAgent(q), env);
    ProviderIsThere(q.kind, Fields(q.config), Fields(current.value.config), env.services);
    if base.config.Document? {
      ExpandOnlyAdds(base.config.fields, catalog, env.services);
      assert !Expandable(base.config.fields, "provider");
    }
  }

  lemma CardsFit(from: Kind, between: Kind, q1: Request, q2: Request, env1: Env, env2: Env, env: Env)
    requires SameAnswers(env1, env2, env, AsAgent(q2))
    ensures var f2, once := FinishOn(between, q2, env2), FinishOn(from, Together(q1, q2), env);
      f2.Carded? && once.Carded? ==> f2.card == once.card
  {
  }

  /** When two updates in a row are one: the second loses no provider and forgets no
      unsent copy; the key and the card stay; and, if the first one leaves a flow agent
      without sub-agents, the repair that the second one's read makes is hidden. */
  predicate InARow(from: Kind, stored: Object, q1: Request, q2: Request, env1: Env, env2: Env, env: Env) {
    var r1, r2 := Fields(q1.config), Fields(q2.config);
    var f1, f2 := FinishOn(from, q1, env1), FinishOn(KindBetween(stored, q1), q2, env2);
    var once := FinishOn(from, Together(q1, q2), env);
    && !LosesProvider(q2.kind, r1, r2)
    && !ForgetsExpansion(stored, r1, r2, "custom_tools")
    && !ForgetsExpansion(stored, r1, r2, "custom_mcp_servers")
    && KeyStays(f1, f2, once, stored, r1, r2, env1.key, env2.key)
    && CardStays(f1, f2, once, stored, r1, r2)
    && (RepairsBetween(q1.kind, stored, r1) ==> RepairIsHidden(stored, r1, r2))
  }

  /** What the second update starts from. */
  function ConfigBetween(from: Kind, stored: Object, q1: Request, env1: Env): Object {
    var first := ConfigAfter(FinishOn(from, q1, env1), q1.kind, stored, Fields(q1.config), env1.key, env1.services);
    if RepairsBetween(q1.kind, stored, Fields(q1.config)) then Repaired(first) else first
  }

  lemma ConditionsMeet(from: Kind, stored: Object, q1: Request, q2: Request, env1: Env, env2: Env, env: Env)
    requires SameAnswers(env1, env2, env, AsAgent(q2)) && env1.key != "" && env1.typeKey != ""
    requires FinishOn(from, q1, env1).Keyed? ==>
      KeyedKind(q1.kind) && !RepairsBetween(q1.kind, stored, Fields(q1.config))
    ensures var r1, r2 := Fields(q1.config), Fields(q2.config);
      var f1, f2 := FinishOn(from, q1, env1), FinishOn(KindBetween(stored, q1), q2, env2);
      var once := FinishOn(from, Together(q1, q2), env);
      && (KeysAgree(f1, f2, once, stored, r1, r2, env1.key, env2.key)
          <==> KeyStays(f1, f2, once, stored, r1, r2, env1.key, env2.key))
      && (CardsAgree(f1, f2, once, stored, r1, r2) <==> CardStays(f1, f2, once, stored, r1, r2))
  {
    var r1, r2 := Fields(q1.config), Fields(q2.config);
    var f1, f2 := FinishOn(from, q1, env1), FinishOn(KindBetween(stored, q1), q2, env2);
    var once := FinishOn(from, Together(q1, q2), env);
    KindsFit(from, KindBetween(stored, q1), q1, q2, env1, env2, env);
    CardsFit(from, KindBetween(stored, q1), q1, q2, env1, env2, env);
    KeyStaysExactly(f1, f2, once, stored, r1, r2, env1.key, env2.key);
    CardStaysExactly(f1, f2, once, stored, r1, r2);
  }

  lemma ProviderWasThere(c: Object)
    ensures "provider" in Repaired(c) ==> "provider" in c
  {
  }

  /** With the repair in between or without. */
  lemma EitherWay(repairs: bool, first: Object, two: Object, one: Object, f1: Finish, f2: Finish, once: Finish,
                  kind1: Kind, kind2: Kind, stored: Object, r1: Object, r2: Object, g1: string, g2: string,
                  services: Services)
    requires g1 != "" && (repairs ==> !f1.Keyed?)
    requires first == ConfigAfter(f1, kind1, stored, r1, g1, services)
    requires two == ConfigAfter(f2, kind2, if repairs then Repaired(first) else first, r2, g2, services)
    requires one == ConfigAfter(once, kind2, stored, r1 + r2, g1, services)
    requires kind2.External? ==> "provider" in r2 || "provider" in first
    ensures two == one <==>
      Composes(f1, f2, once, kind2, stored, r1, r2, g1, g2) && (repairs ==> RepairIsHidden(stored, r1, r2))
  {
    if repairs {
      RepairedConfigsCompose(first, two, one, f1, f2, once, kind1, kind2, stored, r1, r2, g1, g2, services);
    } else {
      ConfigsCompose(first, two, one, f1, f2, once, kind1, kind2, stored, r1, r2, g1, g2, services);
    }
  }

  /** The law on configs alone. */
  lemma ConfigsInARow(from: Kind, stored: Object, q1: Request, q2: Request, env1: Env, env2: Env, env: Env)
    requires SameAnswers(env1, env2, env, AsAgent(q2)) && env1.key != "" && env1.typeKey != ""
    requires FinishOn(from, q1, env1).Keyed? ==>
      KeyedKind(q1.kind) && !RepairsBetween(q1.kind, stored, Fields(q1.config))
    requires q2.kind.External? ==>
      "provider" in Fields(q2.config) || "provider" in ConfigBetween(from, stored, q1, env1)
    ensures var r1, r2, sv := Fields(q1.config), Fields(q2.config), env.services;
      ConfigAfter(FinishOn(KindBetween(stored, q1), q2, env2), q2.kind, ConfigBetween(from, stored, q1, env1), r2,
        env2.key, sv)
        == ConfigAfter(FinishOn(from, Together(q1, q2), env), q2.kind, stored, r1 + r2, env.key, sv)
      <==> InARow(from, stored, q1, q2, env1, env2, env)
  {
    var r1, r2, sv := Fields(q1.config), Fields(q2.config), env1.services;
    var f1, f2 := FinishOn(from, q1, env1), FinishOn(KindBetween(stored, q1), q2, env2);
    var once := FinishOn(from, Together(q1, q2), env);
    var first := ConfigAfter(f1, q1.kind, stored, r1, env1.key, sv);
    ConditionsMeet(from, stored, q1, q2, env1, env2, env);
    if q2.kind.External? && "provider" in ConfigBetween(from, stored, q1, env1) {
      ProviderWasThere(first);
    }
    EitherWay(RepairsBetween(q1.kind, stored, r1), first,
              ConfigAfter(f2, q2.kind, ConfigBetween(from, stored, q1, env1), r2, env2.key, sv),
              ConfigAfter(once, q2.kind, stored, r1 + r2, env.key, sv),
              f1, f2, once, q1.kind, q2.kind, stored, r1, r2, env1.key, env2.key, sv);
  }

  lemma RowReads(row: Agent, kind: Kind, first: Object)
    requires row.kind == kind && row.config == Document(first)
    ensures var between, repairs := Sanitized(row), IsFlow(kind) && !HoldsList(first, "sub_agents");
      && between.kind == (if repairs then LLM else kind)
      && between.config == Document(if repairs then Repaired(first) else first)
  {
  }

  lemma FirstNames(f: Finish, kind: Kind, stored: Object, r: Object, g: string, services: Services)
    ensures IsFlow(kind) && !HoldsList(ConfigAfter(f, kind, stored, r, g, services), "sub_agents")
      <==> RepairsBetween(kind, stored, r)
  {
    ConfigAfterAt(f, kind, stored, r, g, services, "sub_agents");
    assert !Expandable(stored, "sub_agents");
  }

  /** A row the first update left, as the second one reads it. */
  lemma LeftRowReads(row: Agent, from: Kind, stored: Object, q: Request, env: Env)
    requires row.kind == q.kind
    requires row.config
      == Document(ConfigAfter(FinishOn(from, q, env), q.kind, stored, Fields(q.config), env.key, env.services))
    ensures Sanitized(row).kind == KindBetween(stored, q)
    ensures Sanitized(row).config == Document(ConfigBetween(from, stored, q, env))
  {
    FirstNames(FinishOn(from, q, env), q.kind, stored, Fields(q.config), env.key, env.services);
    RowReads(row, q.kind, row.config.fields);
  }

  /** What the second update reads, from the row the first one left. */
  lemma ReadBetween(s: Store, q1: Request, id: nat, env: Env, catalog: Catalog)
    requires Updated(s, q1, id, env, catalog).1.Replied? && !q1.kind.Unset?
    ensures id in s.agents && id in Updated(s, q1, id, env, catalog).0.agents
    ensures var base := Sanitized(s.agents[id]);
      var between := Sanitized(Updated(s, q1, id, env, catalog).0.agents[id]);
      && between.kind == KindBetween(Fields(base.config), q1)
      && between.config == Document(ConfigBetween(base.kind, Fields(base.config), q1, env))
  {
    StoredAfterUpdate(s, q1, id, env, catalog);
    var base := Sanitized(s.agents[id]);
    LeftRowReads(Updated(s, q1, id, env, catalog).0.agents[id], base.kind, Fields(base.config), q1, env);
  }

  lemma ConfigsStored(s: Store, q1: Request, q2: Request, id: nat, env1: Env, env2: Env, env: Env,
                      catalog1: Catalog, catalog2: Catalog, catalog: Catalog)
    requires !q1.kind.Unset? && SameAnswers(env1, env2, env, AsAgent(q2))
    requires Updated(s, q1, id, env1, catalog1).1.Replied?
    requires Updated(Updated(s, q1, id, env1, catalog1).0, q2, id, env2, catalog2).1.Replied?
    requires Updated(s, Together(q1, q2), id, env, catalog).1.Replied?
    ensures id in s.agents
    ensures var base := Sanitized(s.agents[id]);
      var stored := Fields(base.config);
      var two := Updated(Updated(s, q1, id, env1, catalog1).0, q2, id, env2, catalog2).0;
      var one := Updated(s, Together(q1, q2), id, env, catalog).0;
      && id in two.agents && id in one.agents
      && two.agents[id].config == Document(ConfigAfter(FinishOn(KindBetween(stored, q1), q2, env2), q2.kind,
           ConfigBetween(base.kind, stored, q1, env1), Fields(q2.config), env2.key, env.services))
      && one.agents[id].config == Document(ConfigAfter(FinishOn(base.kind, Together(q1, q2), env), q2.kind,
           stored, Fields(q1.config) + Fields(q2.config), env.key, env.services))
  {
    ReadBetween(s, q1, id, env1, catalog1);
    StoredAfterUpdate(Updated(s, q1, id, env1, catalog1).0, q2, id, env2, catalog2);
    StoredAfterUpdate(s, Together(q1, q2), id, env, catalog);
  }

  lemma RequestsFit(s: Store, q1: Request, q2: Request, id: nat, env1: Env, env2: Env, catalog1: Catalog,
                    catalog2: Catalog)
    requires !q1.kind.Unset?
    requires Updated(s, q1, id, env1, catalog1).1.Replied?
    requires Updated(Updated(s, q1, id, env1, catalog1).0, q2, id, env2, catalog2).1.Replied?
    ensures id in s.agents
    ensures var base := Sanitized(s.agents[id]);
      var stored := Fields(base.config);
      && (FinishOn(base.kind, q1, env1).Keyed? ==>
        KeyedKind(q1.kind) && !RepairsBetween(q1.kind, stored, Fields(q1.config)))
      && (q2.kind.External? ==>
        "provider" in Fields(q2.config) || "provider" in ConfigBetween(base.kind, stored, q1, env1))
  {
    ReadBetween(s, q1, id, env1, catalog1);
    KeyedIsValidated(s, q1, id, env1, catalog1);
    if q2.kind.External? {
      ProviderIsBetween(Updated(s, q1, id, env1, catalog1).0, q2, id, env2, catalog2);
    }
  }

  /** Two updates of one agent leave the config that one update leaves which sends
      both requests at once, exactly under the conditions named. */
  lemma TwoUpdatesAreOne(s: Store, q1: Request, q2: Request, id: nat, env1: Env, env2: Env, env: Env,
                         catalog1: Catalog, catalog2: Catalog, catalog: Catalog)
    requires !q1.kind.Unset? && !q2.kind.Unset? && SameAnswers(env1, env2, env, AsAgent(q2))
    requires env1.key != "" && env1.typeKey != ""
    requires Updated(s, q1, id, env1, catalog1).1.Replied?
    requires Updated(Updated(s, q1, id, env1, catalog1).0, q2, id, env2, catalog2).1.Replied?
    requires Updated(s, Together(q1, q2), id, env, catalog).1.Replied?
    ensures id in s.agents
    ensures var base := Sanitized(s.agents[id]);
      var two := Updated(Updated(s, q1, id, env1, catalog1).0, q2, id, env2, catalog2).0;
      var one := Updated(s, Together(q1, q2), id, env, catalog).0;
      && id in two.agents && id in one.agents
      && (two.agents[id].config == one.agents[id].config
          <==> InARow(base.kind, Fields(base.config), q1, q2, env1, env2, env))
  {
    ConfigsStored(s, q1, q2, id, env1, env2, env, catalog1, catalog2, catalog);
    RequestsFit(s, q1, q2, id, env1, env2, catalog1, catalog2);
    var base := Sanitized(s.agents[id]);
    ConfigsInARow(base.kind, Fields(base.config), q1, q2, env1, env2, env);
  }

  // ----- An agent the repair shows on -----

  /** Nothing fails. */
  predicate Works(env: Env) {
    && env.related && env.read && env.repair.Done? && env.write.Done? && env.link.Done?
    && env.botInsert && env.botWrite.Done? && env.key != "" && env.typeKey != ""
  }

  /** The row's bot is there, if it has one. */
  predicate LinkedRow(s: Store, id: nat) {
    id in s.agents && if s.agents[id].botId.None? then !s.agents[id].botSync else s.agents[id].botId.value in s.bots
  }

  lemma WorkingWriteReplies(s: Store, id: nat, processed: Agent, env: Env)
    requires Works(env) && LinkedRow(s, id) && processed.botId.None? && !processed.botSync
    ensures var (t, reply) := WrittenBack(s, id, Some(processed), env);
      reply.Replied? && LinkedRow(t, id)
  {
  }

  lemma ProcessedKeepsBot(agents: map<nat, Agent>, current: Agent, q: Request, env: Env)
    requires ProcessedUpdate(agents, current, AsAgent(q), env).Some?
    ensures var patch := ProcessedUpdate(agents, current, AsAgent(q), env).value;
      patch.botId.None? && !patch.botSync
  {
  }

  lemma WorkingReadSucceeds(s: Store, id: nat, env: Env, catalog: Catalog)
    requires Works(env) && LinkedRow(s, id)
    ensures var (t, agent) := Got(s, id, env, catalog);
      agent.Some? && LinkedRow(t, id)
  {
    RepairSurvivesPartialWrite(s.agents[id]);
  }

  lemma WorkingUpdateReplies(s: Store, q: Request, id: nat, env: Env, catalog: Catalog)
    requires Works(env) && LinkedRow(s, id)
    requires var (t, agent) := Got(s, id, env, catalog);
      agent.Some? ==> ProcessedUpdate(t.agents, agent.value, AsAgent(q), env).Some?
    ensures Updated(s, q, id, env, catalog).1.Replied? && LinkedRow(Updated(s, q, id, env, catalog).0, id)
  {
    WorkingReadSucceeds(s, id, env, catalog);
    var (t, agent) := Got(s, id, env, catalog);
    ProcessedKeepsBot(t.agents, agent.value, q, env);
    WorkingWriteReplies(t, id, ProcessedUpdate(t.agents, agent.value, AsAgent(q), env).value, env);
  }

  /** A request that only names a kind. */
  function Renamed(kind: Kind): Request {
    Request("", "", kind, "", "", None, Document(map[]))
  }

  const N8N_AGENT: Object := map["api_key" := Str("k"), "provider" := Str("n8n")]

  predicate IsN8n(agent: Agent) {
    agent.kind.External? && agent.config == Document(N8N_AGENT)
  }

  lemma BareRequestIsAccepted(agents: map<nat, Agent>, current: Agent, kind: Kind, env: Env)
    requires !kind.External? && (current.kind.External? || kind.LLM?)
    requires "preload_memory" !in Fields(current.config) && "load_memory" !in Fields(current.config)
    ensures ProcessedUpdate(agents, current, AsAgent(Renamed(kind)), env).Some?
  {
    var existing := Dropped(Fields(current.config));
    assert Rejection(kind, map[], Some(existing), env.services).None?;
    assert Rejection(kind, map[], None, env.services).None?;
  }

  lemma N8nUpdateReplies(s: Store, id: nat, kind: Kind, env: Env, catalog: Catalog)
    requires Works(env) && LinkedRow(s, id) && IsN8n(s.agents[id]) && !kind.External?
    ensures Updated(s, Renamed(kind), id, env, catalog).1.Replied?
    ensures LinkedRow(Updated(s, Renamed(kind), id, env, catalog).0, id)
  {
    WorkingReadSucceeds(s, id, env, catalog);
    GotIs(s, id, env, catalog);
    var (t, agent) := Got(s, id, env, catalog);
    BareRequestIsAccepted(t.agents, agent.value, kind, env);
    WorkingUpdateReplies(s, Renamed(kind), id, env, catalog);
  }

  /** An external agent updated to a sequential one: the reply is a flow agent without
      sub-agents. */
  lemma ExternalBecomesFlow(s: Store, id: nat, env: Env, catalog: Catalog)
    requires Works(env) && LinkedRow(s, id) && IsN8n(s.agents[id])
    ensures var (t, reply) := Updated(s, Renamed(Sequential), id, env, catalog);
      reply.Replied? && !Runnable(reply.agent)
  {
    N8nUpdateReplies(s, id, Sequential, env, catalog);
    UpdateReplyIsRunnable(s, Renamed(Sequential), id, env, catalog);
  }

  lemma N8nAt(f: Finish, key: string, env: Env)
    requires key !in {"api_key", "provider", "agent_card"} && f.Plain?
    ensures key !in ConfigAfter(f, Sequential, N8N_AGENT, map[], env.key, env.services)
  {
    ConfigAfterAt(f, Sequential, N8N_AGENT, map[], env.key, env.services, key);
  }

  /** What the sequential agent is read as: an LLM agent with placeholders. */
  lemma N8nBetween(env: Env)
    requires env.key != ""
    ensures var c := ConfigBetween(External, N8N_AGENT, Renamed(Sequential), env);
      "temperature" in c && "preload_memory" !in c && "load_memory" !in c
  {
    var f := FinishOn(External, Renamed(Sequential), env);
    var first := ConfigAfter(f, Sequential, N8N_AGENT, map[], env.key, env.services);
    FirstHoldsKey(f, Sequential, N8N_AGENT, map[], env.key, env.services);
    N8nAt(f, "temperature", env);
    N8nAt(f, "preload_memory", env);
    N8nAt(f, "load_memory", env);
    RepairedAt(first, "temperature");
    RepairedAt(first, "preload_memory");
    RepairedAt(first, "load_memory");
  }

  lemma HydrationAddsNoMemory(c: Object, catalog: Catalog, services: Services)
    requires "preload_memory" !in c && "load_memory" !in c
    ensures "preload_memory" !in Expanded(c, catalog, services) && "load_memory" !in Expanded(c, catalog, services)
  {
    ExpandOnlyAdds(c, catalog, services);
    assert !Expandable(c, "preload_memory") && !Expandable(c, "load_memory");
  }

  /** An update to the LLM kind that sends nothing else goes through. */
  lemma BareUpdateReplies(s: Store, id: nat, env: Env, catalog: Catalog)
    requires Works(env) && LinkedRow(s, id)
    requires var base := Fields(Sanitized(s.agents[id]).config);
      "preload_memory" !in base && "load_memory" !in base
    ensures Updated(s, Renamed(LLM), id, env, catalog).1.Replied?
  {
    WorkingReadSucceeds(s, id, env, catalog);
    GotIs(s, id, env, catalog);
    var base := Sanitized(s.agents[id]);
    var (t, agent) := Got(s, id, env, catalog);
    if base.config.Document? {
      HydrationAddsNoMemory(base.config.fields, catalog, env.services);
    }
    BareRequestIsAccepted(t.agents, agent.value, LLM, env);
    WorkingUpdateReplies(s, Renamed(LLM), id, env, catalog);
  }

  lemma SecondReplies(s: Store, s1: Store, id: nat, env1: Env, env2: Env, catalog1: Catalog, catalog2: Catalog)
    requires Works(env1) && Works(env2) && LinkedRow(s, id) && IsN8n(s.agents[id])
    requires Updated(s, Renamed(Sequential), id, env1, catalog1).1.Replied?
    requires s1 == Updated(s, Renamed(Sequential), id, env1, catalog1).0 && LinkedRow(s1, id)
    ensures Updated(s1, Renamed(LLM), id, env2, catalog2).1.Replied?
    ensures "temperature" in Fields(Sanitized(s1.agents[id]).config)
  {
    ReadBetween(s, Renamed(Sequential), id, env1, catalog1);
    N8nBetween(env1);
    BareUpdateReplies(s1, id, env2, catalog2);
  }

  lemma TemperatureStays(from: Kind, c: Object, env: Env)
    ensures "temperature" in ConfigAfter(FinishOn(from, Renamed(LLM), env), LLM, c, map[], env.key, env.services)
      <==> "temperature" in c
  {
    ConfigAfterAt(FinishOn(from, Renamed(LLM), env), LLM, c, map[], env.key, env.services, "temperature");
  }

  lemma TemperatureStored(s: Store, id: nat, env: Env, catalog: Catalog)
    requires Updated(s, Renamed(LLM), id, env, catalog).1.Replied?
    ensures id in s.agents && id in Updated(s, Renamed(LLM), id, env, catalog).0.agents
    ensures "temperature" in Fields(Updated(s, Renamed(LLM), id, env, catalog).0.agents[id].config)
      <==> "temperature" in Fields(Sanitized(s.agents[id]).config)
  {
    StoredAfterUpdate(s, Renamed(LLM), id, env, catalog);
    var base := Sanitized(s.agents[id]);
    TemperatureStays(base.kind, Fields(base.config), env);
  }

  lemma N8nHasNoTemperature(agent: Agent)
    requires IsN8n(agent)
    ensures "temperature" !in Fields(Sanitized(agent).config)
  {
  }

  /** The second request alone: no placeholders. */
  lemma AloneStoresNoTemperature(s: Store, id: nat, env: Env, catalog: Catalog)
    requires Works(env) && LinkedRow(s, id) && IsN8n(s.agents[id])
    ensures var (t, reply) := Updated(s, Renamed(LLM), id, env, catalog);
      reply.Replied? && id in t.agents && "temperature" !in Fields(t.agents[id].config)
  {
    N8nUpdateReplies(s, id, LLM, env, catalog);
    TemperatureStored(s, id, env, catalog);
    N8nHasNoTemperature(s.agents[id]);
  }

  /** And updated to an LLM agent next. Nothing fails and nothing but the kind is sent,
      yet the two updates leave another config than the one update that sends both
      requests. */
  lemma RepairShowsBetween(s: Store, id: nat, env1: Env, env2: Env, env: Env, catalog1: Catalog, catalog2: Catalog,
                           catalog: Catalog)
    requires Works(env1) && Works(env2) && Works(env) && LinkedRow(s, id) && IsN8n(s.agents[id])
    ensures Together(Renamed(Sequential), Renamed(LLM)) == Renamed(LLM)
    ensures var (s1, reply1) := Updated(s, Renamed(Sequential), id, env1, catalog1);
      var (s2, reply2) := Updated(s1, Renamed(LLM), id, env2, catalog2);
      reply1.Replied? && reply2.Replied? && id in s2.agents && "temperature" in Fields(s2.agents[id].config)
    ensures var (t, reply) := Updated(s, Renamed(LLM), id, env, catalog);
      reply.Replied? && id in t.agents && "temperature" !in Fields(t.agents[id].config)
  {
    N8nUpdateReplies(s, id, Sequential, env1, catalog1);
    var s1 := Updated(s, Renamed(Sequential), id, env1, catalog1).0;
    SecondReplies(s, s1, id, env1, env2, catalog1, catalog2);
    TemperatureStored(s1, id, env2, catalog2);
    AloneStoresNoTemperature(s, id, env, catalog);
  }
}
