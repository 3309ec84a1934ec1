/** What creating, importing, updating and deleting an agent leave in the tables,
    from the request to the row: which requests are taken, and every column of the
    row they store. */
module StoredAgents {
  import opened Wrappers
  import opened Json
  import opened AgentModel
  import opened ToolCatalog
  import opened ReadPath
  import opened TypeProcessors
  import opened AgentTables
  import opened AgentService
  import opened AgentRuns
  import opened ServiceMerge
  import opened AcceptedConfig
  import opened AcceptedKinds
  import opened ReadShows
  import opened BotSaga
  import opened BotContents

  /** What the processors of a call may ask: a key, a card, and which agents exist. */
  lemma HelpIs(agents: map<nat, Agent>, env: Env)
    ensures var help := HelpFor(agents, env);
      && help.key == env.typeKey && help.card == env.card && help.services == env.services
      && forall id :: help.known(id) <==> id in agents && env.lookup(id)
  {
  }

  /** The agent a request describes, with the given config and without a bot. */
  function Described(r: Request, config: Object): Agent {
    Agent(r.name, r.description, r.kind, r.model, r.cardUrl, r.folder, Document(config), None, false)
  }

  // ----- Creating -----

  /** The kind has what it needs: an agent card, or agents that exist. */
  ghost predicate SuitsKind(r: Request, agents: map<nat, Agent>, env: Env) {
    match r.kind
    case LLM => true
    case External => true
    case Workflow => true
    case A2A => r.cardUrl != "" && env.card.Some?
    case kind => NamesItsAgents(kind, ObjectIn(r.config), HelpFor(agents, env))
  }

  ghost predicate IsTakenForCreate(r: Request, agents: map<nat, Agent>, env: Env) {
    Accepts(r.kind, ObjectIn(r.config), map[], env.services) && SuitsKind(r, agents, env)
  }

  /** The row a create makes of a request: its config as processing stores it, then
      what the kind makes of that. */
  ghost predicate IsMadeFrom(r: Request, agents: map<nat, Agent>, env: Env, row: Agent) {
    exists config ::
      && Stores(r.kind, ObjectIn(r.config), map[], env.key, env.services, config)
      && CreateStores(Described(r, config), HelpFor(agents, env), row)
  }

  /** Lists of agents and tasks are stored as sent. */
  lemma AgentsAreStored(kind: Kind, sent: Object, g: string, services: Services, config: Object, help: Help)
    requires Stores(kind, sent, map[], g, services, config)
    ensures NamesItsAgents(kind, config, help) <==> NamesItsAgents(kind, sent, help)
  {
    forall key | key in {"tasks", "sub_agents"} ensures SameAt(config, sent, key) {
      assert key in sent ==> IsStoredAs(key, sent[key], config[key], services);
    }
    assert SameAt(config, sent, "tasks") by { assert "tasks" in {"tasks", "sub_agents"}; }
    assert SameAt(config, sent, "sub_agents") by { assert "sub_agents" in {"tasks", "sub_agents"}; }
  }

  lemma CreateMakes(r: Request, agents: map<nat, Agent>, env: Env)
    ensures var made := ProcessedCreate(agents, AsAgent(r), env);
      && (made.Some? <==> IsTakenForCreate(r, agents, env))
      && (made.Some? ==> IsMadeFrom(r, agents, env, made.value) && made.value.botId == None && !made.value.botSync)
  {
    var help, sent := HelpFor(agents, env), ObjectIn(r.config);
    AcceptedConfig.AcceptedExactly(r.kind, sent, None, map[], env.key, env.services);
    if Accepts(r.kind, sent, map[], env.services) {
      AcceptedConfig.StoredExactly(r.kind, sent, None, map[], env.key, env.services);
      var config := ConfigProcessor.Processed(r.kind, sent, None, env.key, env.services).value;
      AgentsAreStored(r.kind, sent, env.key, env.services, config, help);
      AcceptedKinds.CreatedExactly(Described(r, config), help);
    }
  }

  /** The row with a bot, or without one. */
  predicate IsLinkedTo(row: Agent, stored: Agent, bot: nat) {
    stored == row.(botId := Some(bot), botSync := true)
  }

  /** What inserting the row and linking a bot to it leave, and answer. */
  ghost predicate StoresNew(s: Store, row: Agent, env: Env, t: Store, reply: Reply) {
    && t.nextAgent == s.nextAgent + 1 && s.nextAgent in t.agents
    && t.agents == s.agents[s.nextAgent := t.agents[s.nextAgent]]
    && (t.agents[s.nextAgent] == row || (env.botInsert && IsLinkedTo(row, t.agents[s.nextAgent], s.nextBot)))
    && (!env.botInsert ==> reply == Replied(row))
    && (env.botInsert && env.link == Done ==>
          reply == Replied(t.agents[s.nextAgent]) && IsLinkedTo(row, t.agents[s.nextAgent], s.nextBot))
    && (env.botInsert && env.link != Done ==> reply == Failed)
  }

  lemma NewRowIsStored(s: Store, row: Agent, env: Env)
    requires row.botId == None && !row.botSync
    ensures var (t, reply) := BotForNew(InsertedAgent(s, row, true).0, s.nextAgent, row, env);
      StoresNew(s, row, env, t, reply)
  {
    BotIsInserted(InsertedAgent(s, row, true).0, s.nextAgent, row, env);
  }

  /** A create, over the tables: a request that is not taken, or whose insert fails,
      stores nothing. Otherwise the next id gets the row made from the request, alone
      until its bot is there, and no other agent changes. */
  lemma CreatesExactly(s: Store, r: Request, env: Env)
    ensures var (t, reply) := Created(s, r, env);
      if !env.related || !IsTakenForCreate(r, s.agents, env) then t == s && reply == Failed
      else if !env.insert then t == s.(failed := s.failed + 1) && reply == Failed
      else exists row :: IsMadeFrom(r, s.agents, env, row) && StoresNew(s, row, env, t, reply)
  {
    CreateMakes(r, s.agents, env);
    if env.related && env.insert && IsTakenForCreate(r, s.agents, env) {
      NewRowIsStored(s, ProcessedCreate(s.agents, AsAgent(r), env).value, env);
    }
  }

  // ----- Importing -----

  /** An item with a name and a type that would be taken, and can be inserted. */
  ghost predicate IsImportable(item: Option<Request>, agents: map<nat, Agent>, env: Env) {
    item.Some? && env.related && env.insert && IsTakenForCreate(item.value, agents, env)
  }

  /** The agents stored before the given id was handed out. */
  ghost function Before(agents: map<nat, Agent>, next: nat): map<nat, Agent> {
    map id | id in agents && id < next :: agents[id]
  }

  /** An item, the agents there were when its turn came, and the row it left. */
  ghost predicate IsImported(item: Option<Request>, agents: map<nat, Agent>, row: Agent, env: Env) {
    IsImportable(item, agents, env) && IsMadeFrom(item.value, agents, env, row)
  }

  type Relation = (Option<Request>, map<nat, Agent>, Agent, Env) -> bool

  ghost function Importing(): Relation {
    (item: Option<Request>, agents: map<nat, Agent>, row: Agent, env: Env) => IsImported(item, agents, row, env)
  }

  /** Item `k` is stored under its id and related to its row and to the agents that
      were there before it. */
  ghost predicate StoredAt(items: seq<Option<Request>>, k: nat, agents: map<nat, Agent>, first: nat,
                           envs: nat -> Env, relation: Relation)
  {
    && k < |items| && first + k in agents
    && relation(items[k], Before(agents, first + k), agents[first + k], envs(k))
  }

  ghost predicate StoredInTurn(items: seq<Option<Request>>, n: nat, agents: map<nat, Agent>, first: nat,
                               envs: nat -> Env, relation: Relation)
  {
    forall k :: 0 <= k < n ==> StoredAt(items, k, agents, first, envs, relation)
  }

  /** The first `n` items are stored under the next ids, in order and without bots;
      everything else is as it was. */
  ghost predicate Imports(s: Store, items: seq<Option<Request>>, envs: nat -> Env, n: nat, t: Store, relation: Relation)
  {
    && n <= |items| && t.nextAgent == s.nextAgent + n && t.bots == s.bots && t.nextBot == s.nextBot
    && Before(t.agents, s.nextAgent) == s.agents && Before(t.agents, t.nextAgent) == t.agents
    && StoredInTurn(items, n, t.agents, s.nextAgent, envs, relation)
  }

  lemma BeforeTwice(after: map<nat, Agent>, next: nat, low: nat)
    requires low <= next
    ensures Before(after, low) == Before(Before(after, next), low)
  {
  }

  lemma StoredStay(items: seq<Option<Request>>, more: seq<Option<Request>>, n: nat, before: map<nat, Agent>,
                   after: map<nat, Agent>, first: nat, envs: nat -> Env, relation: Relation)
    requires StoredInTurn(items, n, before, first, envs, relation) && items <= more
    requires Before(after, first + n) == before
    ensures StoredInTurn(more, n, after, first, envs, relation)
  {
    forall k | 0 <= k < n ensures StoredAt(more, k, after, first, envs, relation) {
      assert StoredAt(items, k, before, first, envs, relation);
      assert first + k in Before(after, first + n);
      BeforeTwice(after, first + n, first + k);
    }
  }

  lemma BeforeAndAfter(agents: map<nat, Agent>, next: nat, row: Agent)
    requires forall id :: id in agents ==> id < next
    ensures var after := agents[next := row]; Before(after, next) == agents && Before(after, next + 1) == after
  {
  }

  lemma ItemIsImported(s: Store, item: Option<Request>, env: Env)
    requires forall id :: id in s.agents ==> id < s.nextAgent
    ensures var (t, ok) := ImportedOne(s, item, env);
      && (ok <==> IsImportable(item, s.agents, env))
      && t.bots == s.bots && t.nextBot == s.nextBot
      && (!ok ==> t.agents == s.agents && t.nextAgent == s.nextAgent)
      && (ok ==> t.nextAgent == s.nextAgent + 1 && s.nextAgent in t.agents
                 && Before(t.agents, s.nextAgent) == s.agents && Before(t.agents, t.nextAgent) == t.agents
                 && Importing()(item, s.agents, t.agents[s.nextAgent], env))
  {
    if item.Some? {
      CreateMakes(item.value, s.agents, env);
      var made := ProcessedCreate(s.agents, AsAgent(item.value), env);
      if made.Some? {
        BeforeAndAfter(s.agents, s.nextAgent, made.value);
      }
    }
  }

  /** After the items before it, one more. */
  lemma ImportsOneMore(s: Store, items: seq<Option<Request>>, envs: nat -> Env, s1: Store, t: Store, relation: Relation)
    requires items != [] && Imports(s, items[..|items| - 1], envs, |items| - 1, s1, relation)
    requires t.bots == s1.bots && t.nextBot == s1.nextBot && t.nextAgent == s1.nextAgent + 1
    requires s1.nextAgent in t.agents && Before(t.agents, s1.nextAgent) == s1.agents
    requires Before(t.agents, t.nextAgent) == t.agents
    requires relation(items[|items| - 1], s1.agents, t.agents[s1.nextAgent], envs(|items| - 1))
    ensures Imports(s, items, envs, |items|, t, relation)
  {
    var last := |items| - 1;
    StoredStay(items[..last], items, last, s1.agents, t.agents, s.nextAgent, envs, relation);
    assert StoredAt(items, last, t.agents, s.nextAgent, envs, relation);
    BeforeTwice(t.agents, s1.nextAgent, s.nextAgent);
  }

  /** The items after the one an import stopped at do not count. */
  lemma ImportsNoMore(s: Store, items: seq<Option<Request>>, envs: nat -> Env, n: nat, s1: Store, t: Store,
                      relation: Relation)
    requires items != [] && Imports(s, items[..|items| - 1], envs, n, s1, relation)
    requires t.bots == s1.bots && t.nextBot == s1.nextBot && t.nextAgent == s1.nextAgent && t.agents == s1.agents
    ensures Imports(s, items, envs, n, t, relation)
  {
    StoredStay(items[..|items| - 1], items, n, s1.agents, s1.agents, s.nextAgent, envs, relation);
  }

  /** An import stores the items before the first that cannot be imported, each as a
      create would but without a bot, and answers whether that is all of them. */
  lemma {:induction false} ImportsExactly(s: Store, items: seq<Option<Request>>, envs: nat -> Env) returns (n: nat)
    requires forall id :: id in s.agents ==> id < s.nextAgent
    ensures var (t, ok) := Imported(s, items, envs);
      && Imports(s, items, envs, n, t, Importing())
      && (ok <==> n == |items|)
      && (n < |items| ==> !IsImportable(items[n], t.agents, envs(n)))
  {
    if items == [] {
      n := 0;
      assert Before(s.agents, s.nextAgent) == s.agents;
    } else {
      var last := |items| - 1;
      n := ImportsExactly(s, items[..last], envs);
      var (s1, ok) := Imported(s, items[..last], envs);
      var t := Imported(s, items, envs).0;
      if ok {
        assert forall id :: id in s1.agents ==> id in Before(s1.agents, s1.nextAgent);
        ItemIsImported(s1, items[last], envs(last));
      }
      if ok && ImportedOne(s1, items[last], envs(last)).1 {
        ImportsOneMore(s, items, envs, s1, t, Importing());
        n := |items|;
      } else {
        ImportsNoMore(s, items, envs, n, s1, t, Importing());
      }
    }
  }

  // ----- Updating -----

  /** A config without the copies its id lists make reconstructible. */
  ghost predicate LeavesOutCopies(before: Object, after: Object) {
    && (forall key :: key in after <==>
          && key in before
          && !(key == "custom_tools" && ItemsOf(before, "custom_tool_ids") != [])
          && !(key == "custom_mcp_servers" && ItemsOf(before, "custom_mcp_server_ids") != []))
    && forall key :: key in after ==> after[key] == before[key]
  }

  /** What a partial write makes of a row: a column is overwritten unless what was
      sent for it is empty. */
  predicate IsOverwritten(before: Agent, sent: Agent, after: Agent) {
    && after.name == (if sent.name != "" then sent.name else before.name)
    && after.description == (if sent.description != "" then sent.description else before.description)
    && after.kind == (if sent.kind != Unset then sent.kind else before.kind)
    && after.model == (if sent.model != "" then sent.model else before.model)
    && after.cardUrl == (if sent.cardUrl != "" then sent.cardUrl else before.cardUrl)
    && after.folder == (if sent.folder != None then sent.folder else before.folder)
    && after.config == (if sent.config != Blank then sent.config else before.config)
    && after.botId == (if sent.botId != None then sent.botId else before.botId)
    && after.botSync == (sent.botSync || before.botSync)
  }

  /** What an update sends to the row `left` by its read: the config as processing
      stores it over the one there, then what the two kinds make of that. */
  ghost predicate IsSentBy(r: Request, left: Agent, agents: map<nat, Agent>, env: Env, sent: Agent) {
    exists stored, config ::
      && LeavesOutCopies(ObjectIn(left.config), stored)
      && Accepts(r.kind, ObjectIn(r.config), stored, env.services)
      && Stores(r.kind, ObjectIn(r.config), stored, env.key, env.services, config)
      && UpdateAccepted(left, Described(r, config), HelpFor(agents, env))
      && UpdateStores(left, Described(r, config), HelpFor(agents, env), sent)
  }

  /** The request passes the checks of its config and of the two kinds, a key it does
      not send standing as it is stored. */
  ghost predicate IsTakenForUpdate(r: Request, left: Agent, agents: map<nat, Agent>, env: Env) {
    var sent, there := ObjectIn(r.config), ObjectIn(left.config);
    && Accepts(r.kind, sent, there, env.services)
    && UpdateAccepted(left, Described(r, there + sent), HelpFor(agents, env))
  }

  lemma CopiesAreLeftOut(config: Object)
    ensures LeavesOutCopies(config, Dropped(config))
  {
  }

  lemma ChecksIgnoreCopies(kind: Kind, sent: Object, there: Object, stored: Object, services: Services)
    requires LeavesOutCopies(there, stored)
    ensures Accepts(kind, sent, stored, services) <==> Accepts(kind, sent, there, services)
  {
    forall key, v | key in {"preload_memory", "load_memory", "provider"}
      ensures WillHold(sent, stored, key, v) <==> WillHold(sent, there, key, v)
    {
    }
    assert forall v :: WillHold(sent, stored, "provider", v) <==> WillHold(sent, there, "provider", v);
  }

  /** Lists of agents and tasks are stored as sent, or stay. */
  lemma AgentsAreSettled(kind: Kind, sent: Object, there: Object, stored: Object, g: string, services: Services,
                         config: Object, help: Help)
    requires LeavesOutCopies(there, stored) && Stores(kind, sent, stored, g, services, config)
    ensures NamesItsAgents(kind, config, help) <==> NamesItsAgents(kind, there + sent, help)
  {
    forall key | key == "tasks" || key == "sub_agents" ensures SameAt(config, there + sent, key) {
      assert key in sent ==> IsStoredAs(key, sent[key], config[key], services);
    }
    assert SameAt(config, there + sent, "tasks") && SameAt(config, there + sent, "sub_agents");
  }

  lemma KindsAgree(r: Request, left: Agent, a: Object, b: Object, help: Help)
    requires NamesItsAgents(r.kind, a, help) <==> NamesItsAgents(r.kind, b, help)
    ensures UpdateAccepted(left, Described(r, a), help) <==> UpdateAccepted(left, Described(r, b), help)
  {
  }

  /** The config an accepted update stores, handed to the kind's processor. */
  lemma RowConfig(r: Request, left: Agent, agents: map<nat, Agent>, env: Env) returns (config: Object)
    ensures var sent, stored := ObjectIn(r.config), Dropped(ObjectIn(left.config));
      if Accepts(r.kind, sent, stored, env.services) then
        && Stores(r.kind, sent, stored, env.key, env.services, config)
        && ProcessedUpdate(agents, left, AsAgent(r), env)
             == ForUpdate(left, Described(r, config), HelpFor(agents, env))
      else ProcessedUpdate(agents, left, AsAgent(r), env) == None
  {
    var sent, stored := ObjectIn(r.config), Dropped(ObjectIn(left.config));
    var existing := if left.config.NullText? then None else Some(stored);
    AcceptedConfig.AcceptedExactly(r.kind, sent, existing, stored, env.key, env.services);
    if Accepts(r.kind, sent, stored, env.services) {
      AcceptedConfig.StoredExactly(r.kind, sent, existing, stored, env.key, env.services);
      config := ConfigProcessor.Processed(r.kind, sent, existing, env.key, env.services).value;
    } else {
      config := map[];
    }
  }

  /** The update a request computes from the row itself. */
  lemma RowSends(r: Request, left: Agent, agents: map<nat, Agent>, env: Env)
    ensures var sent := ProcessedUpdate(agents, left, AsAgent(r), env);
      && (sent.Some? <==> IsTakenForUpdate(r, left, agents, env))
      && (sent.Some? ==> IsSentBy(r, left, agents, env, sent.value))
  {
    var sent, there, help := ObjectIn(r.config), ObjectIn(left.config), HelpFor(agents, env);
    var stored := Dropped(there);
    var config := RowConfig(r, left, agents, env);
    CopiesAreLeftOut(there);
    ChecksIgnoreCopies(r.kind, sent, there, stored, env.services);
    if Accepts(r.kind, sent, stored, env.services) {
      AgentsAreSettled(r.kind, sent, there, stored, env.key, env.services, config, help);
      KindsAgree(r, left, config, there + sent, help);
      AcceptedKinds.UpdatedExactly(left, Described(r, config), help);
    }
  }

  /** The same computed from the expanded agent the read shows. */
  lemma UpdateSends(r: Request, left: Agent, catalog: Catalog, agents: map<nat, Agent>, env: Env)
    ensures var current := left.(config := Hydrated(left.config, catalog, env.services));
      var sent := ProcessedUpdate(agents, current, AsAgent(r), env);
      && (sent.Some? <==> IsTakenForUpdate(r, left, agents, env))
      && (sent.Some? ==> IsSentBy(r, left, agents, env, sent.value))
  {
    var current := left.(config := Hydrated(left.config, catalog, env.services));
    if left.config.Document? {
      DropUndoesExpand(left.config.fields, catalog, env.services);
      ExpandOnlyAdds(left.config.fields, catalog, env.services);
      assert SameUpToExpansion(current, left);
    }
    ProcessedUpdateAlike(agents, current, left, AsAgent(r), env);
    RowSends(r, left, agents, env);
  }

  /** The row after the bot step: linked, or as the write left it. */
  predicate IsSettled(row: Agent, stored: Agent, bot: nat) {
    stored == row || stored == row.(botId := Some(bot), botSync := true)
  }

  lemma BotStepSettles(s: Store, id: nat, row: Agent, env: Env)
    requires id in s.agents && s.agents[id] == row && (row.botId == None ==> !row.botSync)
    ensures var (t, reply) := BotForUpdated(s, id, row, env);
      && t.nextAgent == s.nextAgent && t.agents == s.agents[id := t.agents[id]]
      && IsSettled(row, t.agents[id], BotOf(s, id))
      && reply in {Failed, Replied(t.agents[id]), Replied(row.(botSync := true))}
  {
  }

  /** What writing `sent` over the row and settling its bot leave, and answer: the
      row overwritten, its bot linked or not, and no other agent changed. */
  ghost predicate WritesBack(s: Store, id: nat, sent: Agent, env: Env, t: Store, reply: Reply)
    requires id in s.agents
  {
    if env.write == Refused then t == s.(failed := s.failed + 1) && reply == Failed
    else
      && t.nextAgent == s.nextAgent && id in t.agents && t.agents == s.agents[id := t.agents[id]]
      && exists row ::
           && IsOverwritten(s.agents[id], sent, row)
           && (if env.write == Unread then t.agents[id] == row && reply == Failed
               else IsSettled(row, t.agents[id], BotOf(s, id)))
           && (reply.Replied? ==> reply.agent in {t.agents[id], row.(botSync := true)})
  }

  lemma SentIsWrittenBack(s: Store, id: nat, sent: Agent, env: Env)
    requires id in s.agents && (s.agents[id].botId == None ==> !s.agents[id].botSync)
    requires sent.botId == None && !sent.botSync
    ensures var (t, reply) := WrittenBack(s, id, Some(sent), env); WritesBack(s, id, sent, env, t, reply)
  {
    var (s1, written) := UpdatedAgent(s, id, sent, env.write);
    if env.write != Refused {
      var row := s1.agents[id];
      assert IsOverwritten(s.agents[id], sent, row);
      if written.Some? {
        BotStepSettles(s1, id, row, env);
      }
    }
  }

  /** The row a read leaves, of which it shows the expansion. */
  lemma ReadLeaves(s: Store, id: nat, env: Env, catalog: Catalog) returns (s1: Store, left: Agent)
    requires Links(s) && Got(s, id, env, catalog).1.Some?
    ensures id in s.agents && id in s1.agents && s1 == Got(s, id, env, catalog).0 && left == s1.agents[id]
    ensures Leaves(s.agents[id], left) && (left.botId == None ==> !left.botSync)
    ensures Got(s, id, env, catalog).1.value == left.(config := Hydrated(left.config, catalog, env.services))
  {
    GotShows(s, id, env, catalog);
    GotIs(s, id, env, catalog);
    GotKeepsLinks(s, id, env, catalog);
    RepairSurvivesPartialWrite(s.agents[id]);
    s1 := Got(s, id, env, catalog).0;
    left := s1.agents[id];
  }

  /** The update of a row, from the expanded agent its read showed. */
  lemma RowIsUpdated(s: Store, left: Agent, r: Request, id: nat, env: Env, catalog: Catalog)
    requires id in s.agents && s.agents[id] == left && (left.botId == None ==> !left.botSync)
    ensures var current := left.(config := Hydrated(left.config, catalog, env.services));
      var (t, reply) := UpdatedFrom((s, Some(current)), r, id, env);
      if !env.related || !IsTakenForUpdate(r, left, s.agents, env) then t == s && reply == Failed
      else exists sent :: IsSentBy(r, left, s.agents, env, sent) && WritesBack(s, id, sent, env, t, reply)
  {
    var current := left.(config := Hydrated(left.config, catalog, env.services));
    UpdateSends(r, left, catalog, s.agents, env);
    ProcessedCarriesNoLink(s.agents, current, r, env);
    var sent := ProcessedUpdate(s.agents, current, AsAgent(r), env);
    if sent.Some? {
      SentIsWrittenBack(s, id, sent.value, env);
    }
  }

  /** An update, over the tables and the row its read leaves: refused before anything
      is written, or that row overwritten with what the request sends. */
  lemma UpdatesExactly(s: Store, r: Request, id: nat, env: Env, catalog: Catalog) returns (s1: Store, left: Agent)
    requires Links(s)
    ensures s1 == Got(s, id, env, catalog).0
    ensures Got(s, id, env, catalog).1 == None ==> Updated(s, r, id, env, catalog) == (s1, Failed)
    ensures Got(s, id, env, catalog).1.Some? ==>
      && id in s.agents && id in s1.agents && left == s1.agents[id] && Leaves(s.agents[id], left)
      && var (t, reply) := Updated(s, r, id, env, catalog);
         if !env.related || !IsTakenForUpdate(r, left, s1.agents, env) then t == s1 && reply == Failed
         else exists sent :: IsSentBy(r, left, s1.agents, env, sent) && WritesBack(s1, id, sent, env, t, reply)
  {
    var got := Got(s, id, env, catalog);
    if got.1.None? {
      s1, left := got.0, AsAgent(r);
    } else {
      s1, left := ReadLeaves(s, id, env, catalog);
      RowIsUpdated(s1, left, r, id, env, catalog);
    }
  }

  // ----- Deleting -----

  /** A delete, over the tables: the bot of a synced agent goes when one of two tries
      works, then the agent goes when its own delete does. */
  lemma DeletesExactly(s: Store, id: nat, env: Env, catalog: Catalog) returns (s1: Store)
    requires Links(s)
    ensures s1 == Got(s, id, env, catalog).0
    ensures var (t, reply) := DeletedAgent(s, id, env, catalog);
      if Got(s, id, env, catalog).1 == None then t == s1 && reply == Failed
      else
        && id in s1.agents
        && t.agents == (if env.remove then s1.agents - {id} else s1.agents)
        && reply == (if env.remove then Deleted else Failed)
        && t.bots == (match s1.agents[id].botId
                      case Some(b) => if env.botDelete || env.botDeleteRetry then s1.bots - {b} else s1.bots
                      case None => s1.bots)
        && t.nextAgent == s1.nextAgent && t.nextBot == s1.nextBot
  {
    s1 := Got(s, id, env, catalog).0;
    if Got(s, id, env, catalog).1.Some? {
      var left;
      s1, left := ReadLeaves(s, id, env, catalog);
      GotKeepsLinks(s, id, env, catalog);
      assert SyncMeansBot(s.agents);
    }
  }

  // ----- Folders -----

  /** Assigning a folder, or none, changes that column of that row and nothing else. */
  lemma AssignsExactly(s: Store, id: nat, folder: Option<nat>, env: Env)
    ensures var (t, reply) := FolderAssigned(s, id, folder, env);
      if !env.read || id !in s.agents || (folder != None && !env.related) then t == s && reply == Failed
      else if env.write == Refused then t == s.(failed := s.failed + 1) && reply == Failed
      else
        && id in t.agents && t.agents == s.agents[id := s.agents[id].(folder := folder)]
        && t.bots == s.bots && t.nextAgent == s.nextAgent && t.nextBot == s.nextBot
        && reply == (if env.write == Done then Replied(t.agents[id]) else Failed)
  {
  }
}
