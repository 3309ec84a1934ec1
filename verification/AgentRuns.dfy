/** Runs of the agent service: what the tool and server catalogs can influence,
    and what every stored agent satisfies after any sequence of calls. */
module AgentRuns {
  import opened Wrappers
  import opened Json
  import opened AgentModel
  import opened ConfigProcessor
  import opened TypeProcessors
  import opened ToolCatalog
  import opened ReadPath
  import opened AgentTables
  import opened AgentService

  datatype Op =
    | Create(request: Request, env: Env)
    | Import(items: seq<Option<Request>>, envs: nat -> Env)
    | GetOne(id: nat, env: Env)
    | ListPage(query: map<nat, Agent> -> seq<nat>, queries: PageReads, envs: nat -> Env)
    | Update(request: Request, id: nat, env: Env)
    | Delete(id: nat, env: Env)
    | AssignFolder(id: nat, folder: Option<nat>, env: Env)

  datatype Answer =
    | OfWrite(reply: Reply)
    | OfImport(ok: bool)
    | OfRead(agent: Option<Agent>)
    | OfPage(items: seq<Agent>)
    | NoPage

  function Step(s: Store, op: Op, catalog: Catalog): (Store, Answer) {
    match op
    case Create(request, env) => var (t, reply) := Created(s, request, env); (t, OfWrite(reply))
    case Import(items, envs) => var (t, ok) := Imported(s, items, envs); (t, OfImport(ok))
    case GetOne(id, env) => var (t, agent) := Got(s, id, env, catalog); (t, OfRead(agent))
    case ListPage(query, queries, envs) =>
      var (t, items) := Paged(s, query, queries, envs, catalog);
      (t, if items.Some? then OfPage(items.value) else NoPage)
    case Update(request, id, env) => var (t, reply) := Updated(s, request, id, env, catalog); (t, OfWrite(reply))
    case Delete(id, env) => var (t, reply) := DeletedAgent(s, id, env, catalog); (t, OfWrite(reply))
    case AssignFolder(id, folder, env) => var (t, reply) := FolderAssigned(s, id, folder, env); (t, OfWrite(reply))
  }

  /** A run: call i is answered by catalog i. */
  function Run(s: Store, ops: seq<Op>, catalogs: seq<Catalog>): (Store, seq<Answer>)
    requires |ops| == |catalogs|
    decreases |ops|
  {
    if ops == [] then (s, [])
    else
      var (t, answer) := Step(s, ops[0], catalogs[0]);
      var (end, answers) := Run(t, ops[1..], catalogs[1..]);
      (end, [answer] + answers)
  }

  // ----- Catalogs never reach the tables -----

  /** An agent without the keys an id list makes reconstructible. */
  function Stripped(agent: Agent): Agent {
    if agent.config.Document? then agent.(config := Document(Dropped(agent.config.fields))) else agent
  }

  function StrippedAnswer(answer: Answer): Answer {
    match answer
    case OfRead(Some(agent)) => OfRead(Some(Stripped(agent)))
    case OfPage(items) => OfPage(seq(|items|, i requires 0 <= i < |items| => Stripped(items[i])))
    case _ => answer
  }

  /** Two readers' views of one agent. */
  ghost predicate SameUpToExpansion(a: Agent, b: Agent) {
    && Stripped(a) == Stripped(b)
    && a.(config := Blank) == b.(config := Blank)
    && (a.config.NullText? <==> b.config.NullText?)
    && Dropped(Fields(a.config)) == Dropped(Fields(b.config))
    && ("api_key" in Fields(a.config) <==> "api_key" in Fields(b.config))
    && Get(Fields(a.config), "api_key") == Get(Fields(b.config), "api_key")
  }

  lemma HydratedAlike(agent: Agent, c1: Catalog, c2: Catalog, services: Services)
    ensures SameUpToExpansion(agent.(config := Hydrated(agent.config, c1, services)),
                              agent.(config := Hydrated(agent.config, c2, services)))
  {
    if agent.config.Document? {
      var fields := agent.config.fields;
      DropUndoesExpand(fields, c1, services);
      DropUndoesExpand(fields, c2, services);
      ExpandOnlyAdds(fields, c1, services);
      ExpandOnlyAdds(fields, c2, services);
    }
  }

  lemma PreparedAlike(s: Store, id: nat, loaded: Agent, env: Env, c1: Catalog, c2: Catalog)
    ensures var (s1, a1) := Prepared(s, id, loaded, env, c1);
      var (s2, a2) := Prepared(s, id, loaded, env, c2);
      s1 == s2 && (a1.Some? <==> a2.Some?) && (a1.Some? ==> SameUpToExpansion(a1.value, a2.value))
  {
    var sanitized := Sanitized(loaded);
    var repaired := if sanitized == loaded then Some(loaded) else UpdatedAgent(s, id, sanitized, env.repair).1;
    if repaired.Some? {
      HydratedAlike(repaired.value, c1, c2, env.services);
    }
  }

  lemma {:induction false} ListedAlike(s: Store, page: seq<(nat, Agent)>, envs: nat -> Env, c1: Catalog, c2: Catalog)
    ensures Listed(s, page, envs, c1).0 == Listed(s, page, envs, c2).0
    ensures |Listed(s, page, envs, c1).1| == |Listed(s, page, envs, c2).1| == |page|
    ensures forall i :: 0 <= i < |page| ==>
      Stripped(Listed(s, page, envs, c1).1[i]) == Stripped(Listed(s, page, envs, c2).1[i])
  {
    if page != [] {
      var n := |page| - 1;
      ListedAlike(s, page[..n], envs, c1, c2);
      PreparedAlike(Listed(s, page[..n], envs, c1).0, page[n].0, page[n].1, envs(n), c1, c2);
    }
  }

  /** The update a request turns into does not depend on how the current agent
      was expanded when it was read. */
  lemma ProcessedUpdateAlike(agents: map<nat, Agent>, a: Agent, b: Agent, request: Agent, env: Env)
    requires SameUpToExpansion(a, b)
    ensures ProcessedUpdate(agents, a, request, env) == ProcessedUpdate(agents, b, request, env)
  {
    var existing := Dropped(Fields(a.config));
    var config := Processed(request.kind, Fields(request.config),
                            if a.config.NullText? then None else Some(existing), env.key, env.services);
    assert a.kind == a.(config := Blank).kind == b.kind;
    if config.Success? {
      UpdateIgnoresCurrentConfig(a, b, request.(config := Document(config.value)), HelpFor(agents, env));
    }
  }

  lemma UpdatedAlike(s: Store, request: Request, id: nat, env: Env, c1: Catalog, c2: Catalog)
    ensures Updated(s, request, id, env, c1) == Updated(s, request, id, env, c2)
  {
    if env.read && id in s.agents {
      PreparedAlike(s, id, s.agents[id], env, c1, c2);
      var (s1, a1) := Got(s, id, env, c1);
      var (s2, a2) := Got(s, id, env, c2);
      if a1.Some? {
        ProcessedUpdateAlike(s1.agents, a1.value, a2.value, AsAgent(request), env);
      }
    }
  }

  lemma DeletedAlike(s: Store, id: nat, env: Env, c1: Catalog, c2: Catalog)
    ensures DeletedAgent(s, id, env, c1) == DeletedAgent(s, id, env, c2)
  {
    if env.read && id in s.agents {
      PreparedAlike(s, id, s.agents[id], env, c1, c2);
      var (s1, a1) := Got(s, id, env, c1);
      var (s2, a2) := Got(s, id, env, c2);
      if a1.Some? {
        assert a1.value.botId == a1.value.(config := Blank).botId == a2.value.botId;
        assert a1.value.botSync == a1.value.(config := Blank).botSync == a2.value.botSync;
      }
    }
  }

  lemma StepAlike(s: Store, op: Op, c1: Catalog, c2: Catalog)
    ensures Step(s, op, c1).0 == Step(s, op, c2).0
    ensures StrippedAnswer(Step(s, op, c1).1) == StrippedAnswer(Step(s, op, c2).1)
  {
    match op {
      case GetOne(id, env) =>
        if env.read && id in s.agents {
          PreparedAlike(s, id, s.agents[id], env, c1, c2);
        }
      case ListPage(query, _, envs) =>
        ListedAlike(s, PageOf(s.agents, query(s.agents)), envs, c1, c2);
      case Update(request, id, env) => UpdatedAlike(s, request, id, env, c1, c2);
      case Delete(id, env) => DeletedAlike(s, id, env, c1, c2);
      case _ =>
    }
  }

  /** Noninterference: whatever the tool and server catalogs answer, a sequence
      of calls leaves the same agents and bots and, up to the expansions, gives
      the same answers. No read stores an expansion; a client that sends one back, as
      part of the same request in both runs, does store it. */
  lemma {:induction false} CatalogsNeverStored(s: Store, ops: seq<Op>, catalogs1: seq<Catalog>, catalogs2: seq<Catalog>)
    requires |ops| == |catalogs1| == |catalogs2|
    ensures Run(s, ops, catalogs1).0 == Run(s, ops, catalogs2).0
    ensures |Run(s, ops, catalogs1).1| == |Run(s, ops, catalogs2).1| == |ops|
    ensures forall i :: 0 <= i < |ops| ==>
      StrippedAnswer(Run(s, ops, catalogs1).1[i]) == StrippedAnswer(Run(s, ops, catalogs2).1[i])
    decreases |ops|
  {
    if ops != [] {
      StepAlike(s, ops[0], catalogs1[0], catalogs2[0]);
      CatalogsNeverStored(Step(s, ops[0], catalogs1[0]).0, ops[1..], catalogs1[1..], catalogs2[1..]);
    }
  }

  // ----- What every stored config satisfies -----

  predicate SoundConfig(kind: Kind, config: Text) {
    && config.Document?
    && HoldsText(config.fields, "api_key")
    && (Get(config.fields, "preload_memory") == Bool(true) ==> Get(config.fields, "load_memory") == Bool(true))
    && (kind.External? ==> ProviderError(Get(config.fields, "provider")).None?)
  }

  predicate SoundStore(s: Store) {
    forall id :: id in s.agents ==> SoundConfig(s.agents[id].kind, s.agents[id].config)
  }

  /** Generated keys are never empty. */
  predicate KeysWork(env: Env) {
    env.key != "" && env.typeKey != ""
  }

  /** The name and type of an update are required by its request binding. */
  ghost predicate BoundOp(op: Op) {
    match op
    case Create(_, env) => KeysWork(env)
    case Import(items, envs) => forall i: nat :: i < |items| ==> KeysWork(envs(i))
    case Update(request, _, env) => KeysWork(env) && !request.kind.Unset?
    case _ => true
  }

  lemma ProcessedIsSound(kind: Kind, request: Object, existing: Option<Object>, env: Env)
    requires KeysWork(env)
    requires Processed(kind, request, existing, env.key, env.services).Success?
    ensures SoundConfig(kind, Document(Processed(kind, request, existing, env.key, env.services).value))
  {
    var merged := Merged(kind, request, existing, env.key, env.services);
    assert Get(merged, "preload_memory") == Effective(request, existing, "preload_memory");
    assert Get(merged, "load_memory") == Effective(request, existing, "load_memory");
    if kind.External? {
      assert Get(merged, "provider") == Effective(request, existing, "provider");
    }
  }

  lemma CreateIsSound(agents: map<nat, Agent>, request: Agent, env: Env)
    requires KeysWork(env)
    requires ProcessedCreate(agents, request, env).Some?
    ensures var agent := ProcessedCreate(agents, request, env).value;
      SoundConfig(agent.kind, agent.config) && agent.botId == request.botId && agent.botSync == request.botSync
  {
    ProcessedIsSound(request.kind, Fields(request.config), None, env);
  }

  lemma KindUpdateIsSound(current: Agent, request: Agent, help: Help)
    requires SoundConfig(request.kind, request.config)
    requires HoldsText(Fields(current.config), "api_key")
    requires ForUpdate(current, request, help).Some?
    ensures var patch := ForUpdate(current, request, help).value;
      SoundConfig(patch.kind, patch.config) && patch.kind == request.kind
      && patch.botId == request.botId && patch.botSync == request.botSync
  {
  }

  lemma UpdateIsSound(agents: map<nat, Agent>, current: Agent, request: Agent, env: Env)
    requires KeysWork(env) && SoundConfig(current.kind, current.config)
    requires ProcessedUpdate(agents, current, request, env).Some?
    ensures var patch := ProcessedUpdate(agents, current, request, env).value;
      SoundConfig(patch.kind, patch.config) && patch.kind == request.kind
      && patch.botId == request.botId && patch.botSync == request.botSync
  {
    var existing := Some(Dropped(Fields(current.config)));
    ProcessedIsSound(request.kind, Fields(request.config), existing, env);
    var processed := request.(config := Document(Processed(request.kind, Fields(request.config), existing, env.key,
      env.services).value));
    KindUpdateIsSound(current, processed, HelpFor(agents, env));
  }

  lemma SanitizedIsSound(agent: Agent)
    requires SoundConfig(agent.kind, agent.config)
    ensures SoundConfig(Sanitized(agent).kind, Sanitized(agent).config)
    ensures !Sanitized(agent).kind.Unset? || agent.kind.Unset?
  {
    if NeedsRepair(agent) {
      RepairKeepsStoredKeys(agent.config.fields);
    }
  }

  /** A partial write of a sound agent, or of neither kind nor config. */
  predicate SoundPatch(patch: Agent) {
    (patch.kind.Unset? && patch.config.Blank?) || (!patch.kind.Unset? && SoundConfig(patch.kind, patch.config))
  }

  lemma WriteKeepsSound(s: Store, id: nat, patch: Agent, fault: WriteFault)
    requires SoundStore(s)
    requires SoundPatch(patch)
      || (id in s.agents && patch.kind == s.agents[id].kind && SoundConfig(patch.kind, patch.config))
    ensures var (t, row) := UpdatedAgent(s, id, patch, fault);
      SoundStore(t)
        && (row.Some? ==> SoundConfig(row.value.kind, row.value.config) && id in t.agents && row.value == t.agents[id])
  {
  }

  /** Rows never carry the empty kind: creation rejects it and no write sets it. */
  predicate KindsSet(s: Store) {
    forall id :: id in s.agents ==> !s.agents[id].kind.Unset?
  }

  predicate Sound(s: Store) {
    SoundStore(s) && KindsSet(s)
  }

  lemma ExpansionKeepsSound(agent: Agent, catalog: Catalog, services: Services)
    requires SoundConfig(agent.kind, agent.config)
    ensures SoundConfig(agent.kind, Hydrated(agent.config, catalog, services))
  {
    var fields := agent.config.fields;
    var expanded := Expanded(fields, catalog, services);
    ExpandOnlyAdds(fields, catalog, services);
    forall key | key in {"preload_memory", "load_memory", "provider", "api_key"}
      ensures Get(expanded, key) == Get(fields, key)
    {
      assert !Expandable(fields, key);
    }
    assert "preload_memory" in {"preload_memory", "load_memory", "provider", "api_key"};
    assert "load_memory" in {"preload_memory", "load_memory", "provider", "api_key"};
    assert "provider" in {"preload_memory", "load_memory", "provider", "api_key"};
  }

  lemma PreparedKeepsSound(s: Store, id: nat, loaded: Agent, env: Env, catalog: Catalog)
    requires Sound(s)
    requires SoundConfig(loaded.kind, loaded.config) && !loaded.kind.Unset?
    ensures var (t, agent) := Prepared(s, id, loaded, env, catalog);
      Sound(t) && (agent.Some? ==> SoundConfig(agent.value.kind, agent.value.config))
  {
    SanitizedIsSound(loaded);
    WriteKeepsSound(s, id, Sanitized(loaded), env.repair);
    var repaired := if Sanitized(loaded) == loaded then Some(loaded)
      else UpdatedAgent(s, id, Sanitized(loaded), env.repair).1;
    if repaired.Some? {
      ExpandOnlyAdds(repaired.value.config.fields, catalog, env.services);
      ExpansionKeepsSound(repaired.value, catalog, env.services);
    }
  }

  lemma {:induction false} PageRows(agents: map<nat, Agent>, ids: seq<nat>)
    ensures forall i :: 0 <= i < |PageOf(agents, ids)| ==>
      PageOf(agents, ids)[i].0 in agents && PageOf(agents, ids)[i].1 == agents[PageOf(agents, ids)[i].0]
  {
    if ids != [] {
      PageRows(agents, ids[1..]);
    }
  }

  lemma {:induction false} ListedKeepsSound(s: Store, page: seq<(nat, Agent)>, envs: nat -> Env, catalog: Catalog)
    requires Sound(s)
    requires forall i :: 0 <= i < |page| ==> SoundConfig(page[i].1.kind, page[i].1.config) && !page[i].1.kind.Unset?
    ensures Sound(Listed(s, page, envs, catalog).0)
  {
    if page != [] {
      var n := |page| - 1;
      ListedKeepsSound(s, page[..n], envs, catalog);
      PreparedKeepsSound(Listed(s, page[..n], envs, catalog).0, page[n].0, page[n].1, envs(n), catalog);
    }
  }

  lemma CreatedKindSet(agents: map<nat, Agent>, request: Agent, env: Env)
    requires ProcessedCreate(agents, request, env).Some?
    ensures !ProcessedCreate(agents, request, env).value.kind.Unset?
  {
  }

  lemma InsertKeepsSound(s: Store, agent: Agent, works: bool)
    requires Sound(s) && SoundConfig(agent.kind, agent.config) && !agent.kind.Unset?
    ensures var (t, id) := InsertedAgent(s, agent, works);
      Sound(t) && (id.Some? ==> id.value in t.agents && t.agents[id.value] == agent)
  {
  }

  lemma NewBotKeepsSound(s: Store, bot: Bot, works: bool)
    requires Sound(s)
    ensures Sound(InsertedBot(s, bot, works).0) && InsertedBot(s, bot, works).0.agents == s.agents
  {
  }

  /** The bot step behind a create. */
  lemma NewAgentBotKeepsSound(s: Store, id: nat, agent: Agent, env: Env)
    requires Sound(s) && SoundConfig(agent.kind, agent.config) && !agent.kind.Unset?
    ensures Sound(BotForNew(s, id, agent, env).0)
  {
    var bot := BotFor(id, agent, env.services);
    NewBotKeepsSound(s, bot, env.botInsert);
    var (s1, b) := InsertedBot(s, bot, env.botInsert);
    if b.Some? {
      WriteKeepsSound(s1, id, Linked(agent, b.value), env.link);
    }
  }

  lemma CreateKeepsSound(s: Store, request: Request, env: Env)
    requires Sound(s) && KeysWork(env)
    ensures Sound(Created(s, request, env).0)
  {
    var processed := ProcessedCreate(s.agents, AsAgent(request), env);
    if env.related && processed.Some? {
      CreateIsSound(s.agents, AsAgent(request), env);
      CreatedKindSet(s.agents, AsAgent(request), env);
      InsertKeepsSound(s, processed.value, env.insert);
      var (s1, id) := InsertedAgent(s, processed.value, env.insert);
      if id.Some? {
        NewAgentBotKeepsSound(s1, id.value, processed.value, env);
      }
    }
  }

  lemma {:induction false} ImportKeepsSound(s: Store, items: seq<Option<Request>>, envs: nat -> Env)
    requires Sound(s)
    requires forall i: nat :: i < |items| ==> KeysWork(envs(i))
    ensures Sound(Imported(s, items, envs).0)
  {
    if items != [] {
      var n := |items| - 1;
      ImportKeepsSound(s, items[..n], envs);
      var s1 := Imported(s, items[..n], envs).0;
      if items[n].Some? && ProcessedCreate(s1.agents, AsAgent(items[n].value), envs(n)).Some? {
        CreateIsSound(s1.agents, AsAgent(items[n].value), envs(n));
        CreatedKindSet(s1.agents, AsAgent(items[n].value), envs(n));
      }
    }
  }

  lemma GotKeepsSound(s: Store, id: nat, env: Env, catalog: Catalog)
    requires Sound(s)
    ensures var (t, agent) := Got(s, id, env, catalog);
      Sound(t) && (agent.Some? ==> SoundConfig(agent.value.kind, agent.value.config))
  {
    if env.read && id in s.agents {
      PreparedKeepsSound(s, id, s.agents[id], env, catalog);
    }
  }

  lemma BotRewriteKeepsSound(s: Store, b: nat, patch: Bot, fault: WriteFault)
    requires Sound(s)
    ensures Sound(UpdatedBot(s, b, patch, fault).0) && UpdatedBot(s, b, patch, fault).0.agents == s.agents
  {
  }

  lemma BotStepKeepsSound(s: Store, id: nat, agent: Agent, env: Env)
    requires Sound(s) && id in s.agents && agent == s.agents[id]
    ensures Sound(BotForUpdated(s, id, agent, env).0)
  {
    var bot := BotFor(id, agent, env.services);
    if agent.botId.None? {
      NewBotKeepsSound(s, bot, env.botInsert);
      var (s1, b) := InsertedBot(s, bot, env.botInsert);
      if b.Some? {
        WriteKeepsSound(s1, id, Linked(agent, b.value), env.link);
      }
    } else {
      BotRewriteKeepsSound(s, agent.botId.value, bot, env.botWrite);
      var s1 := UpdatedBot(s, agent.botId.value, bot, env.botWrite).0;
      WriteKeepsSound(s1, id, Linked(agent, agent.botId.value), env.link);
    }
  }

  lemma WriteBackKeepsSound(s: Store, current: Agent, request: Request, id: nat, env: Env)
    requires Sound(s) && KeysWork(env) && !request.kind.Unset?
    requires SoundConfig(current.kind, current.config)
    requires ProcessedUpdate(s.agents, current, AsAgent(request), env).Some?
    ensures var patch := ProcessedUpdate(s.agents, current, AsAgent(request), env).value;
      var (t, row) := UpdatedAgent(s, id, patch, env.write);
      Sound(t) && (row.Some? ==> Sound(BotForUpdated(t, id, row.value, env).0))
  {
    UpdateIsSound(s.agents, current, AsAgent(request), env);
    var patch := ProcessedUpdate(s.agents, current, AsAgent(request), env).value;
    WriteKeepsSound(s, id, patch, env.write);
    var (t, row) := UpdatedAgent(s, id, patch, env.write);
    if row.Some? {
      BotStepKeepsSound(t, id, row.value, env);
    }
  }

  lemma UpdateKeepsSound(s: Store, request: Request, id: nat, env: Env, catalog: Catalog)
    requires Sound(s) && KeysWork(env) && !request.kind.Unset?
    ensures Sound(Updated(s, request, id, env, catalog).0)
  {
    GotKeepsSound(s, id, env, catalog);
    var (s1, current) := Got(s, id, env, catalog);
    if current.Some? && ProcessedUpdate(s1.agents, current.value, AsAgent(request), env).Some? {
      WriteBackKeepsSound(s1, current.value, request, id, env);
    }
  }

  lemma DeleteKeepsSound(s: Store, id: nat, env: Env, catalog: Catalog)
    requires Sound(s)
    ensures Sound(DeletedAgent(s, id, env, catalog).0)
  {
    GotKeepsSound(s, id, env, catalog);
    var (s1, current) := Got(s, id, env, catalog);
    if current.Some? {
      assert DroppedBot(s1, current.value, env).agents == s1.agents;
    }
  }

  lemma PageKeepsSound(s: Store, ids: seq<nat>, envs: nat -> Env, catalog: Catalog)
    requires Sound(s)
    ensures Sound(Listed(s, PageOf(s.agents, ids), envs, catalog).0)
  {
    PageRows(s.agents, ids);
    ListedKeepsSound(s, PageOf(s.agents, ids), envs, catalog);
  }

  lemma FolderKeepsSound(s: Store, id: nat, folder: Option<nat>, env: Env)
    requires Sound(s)
    ensures Sound(FolderAssigned(s, id, folder, env).0)
  {
    if folder.Some? {
      WriteKeepsSound(s, id, EMPTY_PATCH.(folder := folder), env.write);
    }
  }

  lemma StepKeepsSound(s: Store, op: Op, catalog: Catalog)
    requires Sound(s) && BoundOp(op)
    ensures Sound(Step(s, op, catalog).0)
  {
    match op {
      case Create(request, env) => CreateKeepsSound(s, request, env);
      case Import(items, envs) => ImportKeepsSound(s, items, envs);
      case GetOne(id, env) => GotKeepsSound(s, id, env, catalog);
      case ListPage(query, _, envs) => PageKeepsSound(s, query(s.agents), envs, catalog);
      case Update(request, id, env) => UpdateKeepsSound(s, request, id, env, catalog);
      case Delete(id, env) => DeleteKeepsSound(s, id, env, catalog);
      case AssignFolder(id, folder, env) => FolderKeepsSound(s, id, folder, env);
    }
  }

  /** Over every run: each stored config is an object with a non-empty api_key,
      preloading memory implies loading it, and an external agent has a
      supported provider. */
  lemma {:induction false} RunsKeepSound(s: Store, ops: seq<Op>, catalogs: seq<Catalog>)
    requires |ops| == |catalogs|
    requires Sound(s) && forall i :: 0 <= i < |ops| ==> BoundOp(ops[i])
    ensures Sound(Run(s, ops, catalogs).0)
    decreases |ops|
  {
    if ops != [] {
      StepKeepsSound(s, ops[0], catalogs[0]);
      RunsKeepSound(Step(s, ops[0], catalogs[0]).0, ops[1..], catalogs[1..]);
    }
  }

  // ----- Reads repair once -----

  /** After a successful read the stored agent needs no repair, so a second read
      writes nothing and succeeds whenever it can be loaded. */
  lemma SecondReadWritesNothing(s: Store, id: nat, env1: Env, env2: Env, c1: Catalog, c2: Catalog)
    requires Got(s, id, env1, c1).1.Some?
    ensures var t := Got(s, id, env1, c1).0;
      Got(t, id, env2, c2).0 == t && (env2.read ==> Got(t, id, env2, c2).1.Some?)
  {
    SanitizedIsFixpoint(s.agents[id]);
  }

  lemma RepairSurvivesPartialWrite(agent: Agent)
    ensures Patched(agent, Sanitized(agent)) == Sanitized(agent)
  {
  }

  /** A flow agent with a config names at least one sub-agent to run. */
  predicate Runnable(agent: Agent) {
    IsFlow(agent.kind) && !agent.config.Blank? ==> HoldsList(Fields(agent.config), "sub_agents")
  }

  /** The row is as it was loaded, or as its repair left it. */
  predicate AsLoaded(s: Store, id: nat, loaded: Agent) {
    id in s.agents && (s.agents[id] == loaded || s.agents[id] == Sanitized(loaded))
  }

  lemma PatchedByRepair(row: Agent, loaded: Agent)
    requires row == loaded || row == Sanitized(loaded)
    ensures Patched(row, Sanitized(loaded)) == Sanitized(loaded)
  {
  }

  lemma PreparedIsRunnable(s: Store, id: nat, loaded: Agent, env: Env, catalog: Catalog)
    requires AsLoaded(s, id, loaded)
    ensures var (t, shown) := Prepared(s, id, loaded, env, catalog);
      && AsLoaded(t, id, loaded)
      && (forall other :: other in s.agents && other != id ==> other in t.agents && t.agents[other] == s.agents[other])
      && (shown.Some? ==> Runnable(shown.value))
    ensures Runnable(Sanitized(loaded))
  {
    RepairedFlowHasSubAgents(loaded);
    PatchedByRepair(s.agents[id], loaded);
    if Sanitized(loaded).config.Document? {
      ExpandOnlyAdds(Sanitized(loaded).config.fields, catalog, env.services);
    }
  }

  /** Every row of a page was loaded before the first was prepared. */
  predicate PageAsLoaded(s: Store, page: seq<(nat, Agent)>) {
    && (forall i :: 0 <= i < |page| ==> AsLoaded(s, page[i].0, page[i].1))
    && (forall i, j :: 0 <= i < |page| && 0 <= j < |page| && page[i].0 == page[j].0 ==> page[i].1 == page[j].1)
  }

  lemma {:induction false} ListedRunnable(s: Store, page: seq<(nat, Agent)>, n: nat, envs: nat -> Env, catalog: Catalog)
    requires PageAsLoaded(s, page) && n <= |page|
    ensures var (t, items) := Listed(s, page[..n], envs, catalog);
      PageAsLoaded(t, page) && |items| == n && forall i :: 0 <= i < n ==> Runnable(items[i])
  {
    if n > 0 {
      ListedRunnable(s, page, n - 1, envs, catalog);
      assert page[..n][..n - 1] == page[..n - 1];
      var t := Listed(s, page[..n - 1], envs, catalog).0;
      PreparedIsRunnable(t, page[n - 1].0, page[n - 1].1, envs(n - 1), catalog);
    }
  }

  /** A flow agent is only ever read with sub-agents to run: alone or on a page, a
      row whose repair could not be written included. */
  lemma ReadFlowsHaveSubAgents(s: Store, id: nat, env: Env, ids: seq<nat>, envs: nat -> Env, catalog: Catalog)
    ensures Got(s, id, env, catalog).1.Some? ==> Runnable(Got(s, id, env, catalog).1.value)
    ensures forall i :: 0 <= i < |Listed(s, PageOf(s.agents, ids), envs, catalog).1| ==>
      Runnable(Listed(s, PageOf(s.agents, ids), envs, catalog).1[i])
  {
    if env.read && id in s.agents {
      PreparedIsRunnable(s, id, s.agents[id], env, catalog);
    }
    PageRows(s.agents, ids);
    var page := PageOf(s.agents, ids);
    assert page[..|page|] == page;
    ListedRunnable(s, page, |page|, envs, catalog);
  }
}
