/** The agent service: create, import, read, list, update, delete and folder
    assignment over the two tables. Every call outside is answered by `Env`; the
    functions say what a call does to the tables, the class does it. */
module AgentService {
  import opened Wrappers
  import opened Json
  import opened AgentModel
  import opened ConfigProcessor
  import opened TypeProcessors
  import opened ToolCatalog
  import opened ReadPath
  import opened AgentTables

  /** What a client may send: never an id, a bot id or the sync flag. */
  datatype Request = Request(
    name: string, description: string, kind: Kind, model: string, cardUrl: string, folder: Option<nat>, config: Text)

  function AsAgent(r: Request): Agent {
    Agent(r.name, r.description, r.kind, r.model, r.cardUrl, r.folder, r.config, None, false)
  }

  /** The answers one call gets: keys to generate (one for the config, one for
      the kind's processor), the agent card, lookups, and which writes fail. */
  datatype Env = Env(
    key: string, typeKey: string, services: Services, card: Option<Object>,
    related: bool, read: bool, lookup: nat -> bool,
    repair: WriteFault, insert: bool, write: WriteFault, link: WriteFault, remove: bool,
    botInsert: bool, botWrite: WriteFault, cleanup: bool, botDelete: bool, botDeleteRetry: bool)

  /** `Crashed` is the dereference of the nil bot CreateAgentBot returns for an
      agent whose sync flag is already set. */
  datatype Reply = Failed | Crashed | Replied(agent: Agent) | Deleted

  function HelpFor(agents: map<nat, Agent>, env: Env): Help {
    Help(env.typeKey, env.card, id => id in agents && env.lookup(id), env.services)
  }

  // ----- What each call does -----

  /** Loading, repairing and expanding one agent. A failed repair write fails
      the read; the expansion never touches the tables. */
  function Prepared(s: Store, id: nat, loaded: Agent, env: Env, catalog: Catalog): (Store, Option<Agent>) {
    var sanitized := Sanitized(loaded);
    var (s1, repaired) := if sanitized == loaded then (s, Some(loaded)) else UpdatedAgent(s, id, sanitized, env.repair);
    if repaired.None? then (s1, None)
    else (s1, Some(repaired.value.(config := Hydrated(repaired.value.config, catalog, env.services))))
  }

  function Got(s: Store, id: nat, env: Env, catalog: Catalog): (Store, Option<Agent>) {
    if !env.read || id !in s.agents then (s, None) else Prepared(s, id, s.agents[id], env, catalog)
  }

  /** The rows a query selects, in its order. */
  function PageOf(agents: map<nat, Agent>, ids: seq<nat>): seq<(nat, Agent)> {
    if ids == [] then []
    else (if ids[0] in agents then [(ids[0], agents[ids[0]])] else []) + PageOf(agents, ids[1..])
  }

  /** One page: rows loaded first, then prepared one by one; a row whose repair
      cannot be written is listed repaired but not expanded. */
  function Listed(s: Store, page: seq<(nat, Agent)>, envs: nat -> Env, catalog: Catalog): (Store, seq<Agent>) {
    if page == [] then (s, [])
    else
      var n := |page| - 1;
      var (s1, before) := Listed(s, page[..n], envs, catalog);
      var (s2, shown) := Prepared(s1, page[n].0, page[n].1, envs(n), catalog);
      (s2, before + [if shown.Some? then shown.value else Sanitized(page[n].1)])
  }

  /** Whether the two queries of a page work: its rows, and how many there are. */
  datatype PageReads = PageReads(rows: bool, count: bool)

  /** A page without either of them is no page, and nothing has been repaired. */
  function Paged(s: Store, query: map<nat, Agent> -> seq<nat>, queries: PageReads, envs: nat -> Env, catalog: Catalog)
    : (Store, Option<seq<Agent>>) {
    if !queries.rows || !queries.count then (s, None)
    else
      var (t, items) := Listed(s, PageOf(s.agents, query(s.agents)), envs, catalog);
      (t, Some(items))
  }

  function ProcessedCreate(agents: map<nat, Agent>, request: Agent, env: Env): Option<Agent> {
    var config := Processed(request.kind, Fields(request.config), None, env.key, env.services);
    if config.Failure? then None
    else ForCreate(request.(config := Document(config.value)), HelpFor(agents, env))
  }

  function ProcessedUpdate(agents: map<nat, Agent>, current: Agent, request: Agent, env: Env): Option<Agent> {
    var existing := Dropped(Fields(current.config));
    var config := Processed(request.kind, Fields(request.config),
                            if current.config.NullText? then None else Some(existing), env.key, env.services);
    if config.Failure? then None
    else ForUpdate(current, request.(config := Document(config.value)), HelpFor(agents, env))
  }

  /** The key a bot calls back with: the agent's api_key or a derived one. */
  function BotKey(id: nat, agent: Agent, services: Services): string {
    if HoldsText(Fields(agent.config), "api_key") then Fields(agent.config)["api_key"].s
    else "evo-ai-bot-" + services.printUuid(id)
  }

  function BotFor(id: nat, agent: Agent, services: Services): Bot {
    Bot(agent.name, agent.description, id, BotKey(id, agent, services))
  }

  function Linked(agent: Agent, bot: nat): Agent {
    agent.(botId := Some(bot), botSync := true)
  }

  /** Create's second half: a bot for the new agent, then the link. A link that
      cannot be written takes the bot down again. */
  function BotForNew(s: Store, id: nat, agent: Agent, env: Env): (Store, Reply) {
    if agent.botSync then (s, Crashed)
    else
      var (s1, bot) := InsertedBot(s, BotFor(id, agent, env.services), env.botInsert);
      if bot.None? then (s1, Replied(agent))
      else
        var (s2, row) := UpdatedAgent(s1, id, Linked(agent, bot.value), env.link);
        if row.Some? then (s2, Replied(row.value)) else (RemovedBot(s2, bot.value, env.cleanup).0, Failed)
  }

  function Link(s: Store, id: nat, agent: Agent, bot: nat, env: Env): (Store, Reply) {
    var (s1, row) := UpdatedAgent(s, id, Linked(agent, bot), env.link);
    (s1, if row.Some? then Replied(row.value) else Failed)
  }

  /** Update's second half: the agent's bot is rewritten, or one is created;
      here nothing takes a new bot down when the link fails. */
  function BotForUpdated(s: Store, id: nat, agent: Agent, env: Env): (Store, Reply) {
    if agent.botId.None? && agent.botSync then (s, Crashed)
    else if agent.botId.None? then
      var (s1, bot) := InsertedBot(s, BotFor(id, agent, env.services), env.botInsert);
      if bot.None? then (s1, Replied(agent)) else Link(s1, id, agent, bot.value, env)
    else
      var (s1, ok) := UpdatedBot(s, agent.botId.value, BotFor(id, agent, env.services), env.botWrite);
      if !ok then (s1, Replied(agent.(botSync := true))) else Link(s1, id, agent, agent.botId.value, env)
  }

  function Created(s: Store, request: Request, env: Env): (Store, Reply) {
    var processed := ProcessedCreate(s.agents, AsAgent(request), env);
    if !env.related || processed.None? then (s, Failed)
    else
      var (s1, id) := InsertedAgent(s, processed.value, env.insert);
      if id.None? then (s1, Failed) else BotForNew(s1, id.value, processed.value, env)
  }

  /** The partial write of a processed agent and the bot step after it. */
  function WrittenBack(s: Store, id: nat, processed: Option<Agent>, env: Env): (Store, Reply) {
    if processed.None? then (s, Failed)
    else
      var (s1, row) := UpdatedAgent(s, id, processed.value, env.write);
      if row.None? then (s1, Failed) else BotForUpdated(s1, id, row.value, env)
  }

  /** An update, once the agent was loaded and prepared. */
  function UpdatedFrom(got: (Store, Option<Agent>), request: Request, id: nat, env: Env): (Store, Reply) {
    if got.1.None? || !env.related then (got.0, Failed)
    else WrittenBack(got.0, id, ProcessedUpdate(got.0.agents, got.1.value, AsAgent(request), env), env)
  }

  function Updated(s: Store, request: Request, id: nat, env: Env, catalog: Catalog): (Store, Reply) {
    UpdatedFrom(Got(s, id, env, catalog), request, id, env)
  }

  function DroppedBot(s: Store, agent: Agent, env: Env): Store {
    if agent.botId.None? || !agent.botSync then s
    else
      var (s1, ok) := RemovedBot(s, agent.botId.value, env.botDelete);
      if ok then s1 else RemovedBot(s1, agent.botId.value, env.botDeleteRetry).0
  }

  function DeletedAgent(s: Store, id: nat, env: Env, catalog: Catalog): (Store, Reply) {
    var (s1, current) := Got(s, id, env, catalog);
    if current.None? then (s1, Failed)
    else
      var (s2, ok) := RemovedAgent(DroppedBot(s1, current.value, env), id, env.remove);
      (s2, if ok then Deleted else Failed)
  }

  /** One import item: `None` is an entry without a name or a type. */
  function ImportedOne(s: Store, item: Option<Request>, env: Env): (Store, bool) {
    if item.None? || !env.related then (s, false)
    else
      var processed := ProcessedCreate(s.agents, AsAgent(item.value), env);
      if processed.None? then (s, false)
      else
        var (s1, id) := InsertedAgent(s, processed.value, env.insert);
        (s1, id.Some?)
  }

  /** An import stops at the first item that fails and keeps the ones before. */
  function Imported(s: Store, items: seq<Option<Request>>, envs: nat -> Env): (Store, bool) {
    if items == [] then (s, true)
    else
      var n := |items| - 1;
      var (s1, ok) := Imported(s, items[..n], envs);
      if !ok then (s1, false) else ImportedOne(s1, items[n], envs(n))
  }

  const EMPTY_PATCH: Agent := Agent("", "", Unset, "", "", None, Blank, None, false)

  function FolderAssigned(s: Store, id: nat, folder: Option<nat>, env: Env): (Store, Reply) {
    if !env.read || id !in s.agents then (s, Failed)
    else if folder.Some? && !env.related then (s, Failed)
    else
      var (s1, row) := if folder.None? then ClearedFolder(s, id, env.write)
                       else UpdatedAgent(s, id, EMPTY_PATCH.(folder := folder), env.write);
      (s1, if row.Some? then Replied(row.value) else Failed)
  }

  // ----- The service -----

  /** Items after a failed one change nothing. */
  lemma {:induction false} ImportStops(s: Store, items: seq<Option<Request>>, failedAt: nat, envs: nat -> Env)
    requires failedAt <= |items|
    requires !Imported(s, items[..failedAt], envs).1
    ensures Imported(s, items, envs) == Imported(s, items[..failedAt], envs)
  {
    if failedAt == |items| {
      assert items[..failedAt] == items;
    } else {
      var n := |items| - 1;
      assert items[..n][..failedAt] == items[..failedAt];
      ImportStops(s, items[..n], failedAt, envs);
      assert !Imported(s, items[..n], envs).1;
    }
  }

  class Service {
    const tables: Tables

    constructor (tables: Tables)
      ensures this.tables == tables
    {
      this.tables := tables;
    }

    /** sanitizeAgent: decides the repair in memory and writes it if any. */
    method SanitizeAgent(id: nat, loaded: Agent, env: Env) returns (agent: Option<Agent>)
      modifies tables
      ensures (tables.Contents(), agent) ==
        if Sanitized(loaded) == loaded then (old(tables.Contents()), Some(loaded))
        else UpdatedAgent(old(tables.Contents()), id, Sanitized(loaded), env.repair)
    {
      var current := loaded;
      var updated := false;
      if current.name != "" {
        var name := SanitizeName(current.name);
        if name != current.name {
          current := current.(name := name);
          updated := true;
        }
      }
      if !current.config.Blank? && IsFlow(current.kind) && !HoldsList(Fields(current.config), "sub_agents") {
        var config := RepairConfig(Fields(current.config));
        current := current.(kind := LLM, model := OrElse(current.model, REPAIR_MODEL), config := Document(config));
        updated := true;
      }
      assert current == Sanitized(loaded) && (updated <==> current != loaded);
      if !updated {
        return Some(current);
      }
      agent := tables.UpdateAgent(id, current, env.repair);
    }

    /** reconstructCustomConfigurations: the expansion, in memory only. */
    method Reconstruct(config: Text, catalog: Catalog, services: Services) returns (expanded: Text)
      ensures expanded == Hydrated(config, catalog, services)
    {
      if !config.Document? {
        return config;
      }
      var fields := config.fields;
      if HoldsList(fields, "custom_tool_ids") && "custom_tools" !in fields {
        var ids := ParseIds(fields["custom_tool_ids"].items, services);
        if ids != [] && catalog.tools.Some? {
          var selected := Selected(catalog.tools.value, ids);
          if selected != [] {
            fields := fields["custom_tools" := Obj(map["http_tools" := Arr(selected)])];
          }
        }
      }
      assert fields == With(config.fields, "custom_tools", ExpandedTools(config.fields, catalog.tools, services));
      if HoldsList(fields, "custom_mcp_server_ids") && "custom_mcp_servers" !in fields {
        var ids := ParseIds(fields["custom_mcp_server_ids"].items, services);
        if ids != [] {
          var servers := catalog.servers(ids);
          if servers.Some? {
            fields := fields["custom_mcp_servers" := servers.value];
          }
        }
      }
      return Document(fields);
    }

    method PrepareForRead(id: nat, loaded: Agent, env: Env, catalog: Catalog) returns (agent: Option<Agent>)
      modifies tables
      ensures (tables.Contents(), agent) == Prepared(old(tables.Contents()), id, loaded, env, catalog)
    {
      agent := SanitizeAgent(id, loaded, env);
      if agent.None? {
        return None;
      }
      var config := Reconstruct(agent.value.config, catalog, env.services);
      return Some(agent.value.(config := config));
    }

    method GetByID(id: nat, env: Env, catalog: Catalog) returns (agent: Option<Agent>)
      modifies tables
      ensures (tables.Contents(), agent) == Got(old(tables.Contents()), id, env, catalog)
    {
      if !env.read || id !in tables.agents {
        return None;
      }
      agent := PrepareForRead(id, tables.agents[id], env, catalog);
    }

    /** Both queries come before the first row is prepared. */
    method List(query: map<nat, Agent> -> seq<nat>, queries: PageReads, envs: nat -> Env, catalog: Catalog)
      returns (items: Option<seq<Agent>>)
      modifies tables
      ensures (tables.Contents(), items) == Paged(old(tables.Contents()), query, queries, envs, catalog)
    {
      if !queries.rows {
        return None;
      }
      var page := PageOf(tables.agents, query(tables.agents));
      if !queries.count {
        return None;
      }
      var prepared := [];
      for i := 0 to |page|
        invariant (tables.Contents(), prepared) == Listed(old(tables.Contents()), page[..i], envs, catalog)
      {
        assert page[..i + 1][..i] == page[..i];
        var shown := PrepareForRead(page[i].0, page[i].1, envs(i), catalog);
        prepared := prepared + [if shown.Some? then shown.value else Sanitized(page[i].1)];
      }
      assert page[..|page|] == page;
      items := Some(prepared);
    }

    method ProcessAgentCreate(request: Agent, env: Env) returns (processed: Option<Agent>)
      ensures processed == ProcessedCreate(tables.agents, request, env)
    {
      var config := ProcessAgentConfig(request.kind, request.config, None, env.key, env.services);
      if config.Failure? {
        return None;
      }
      processed := ProcessForCreate(request.(config := config.value), HelpFor(tables.agents, env));
    }

    method ProcessAgentUpdate(current: Agent, request: Agent, env: Env) returns (processed: Option<Agent>)
      ensures processed == ProcessedUpdate(tables.agents, current, request, env)
    {
      var existing := Decode(current.config);
      if existing.Some? {
        var dropped := DropHydratedCopies(existing.value);
        existing := Some(dropped);
      }
      var config := ProcessAgentConfig(request.kind, request.config, existing, env.key, env.services);
      if config.Failure? {
        return None;
      }
      processed := ProcessForUpdate(current, request.(config := config.value), HelpFor(tables.agents, env));
    }

    method Create(request: Request, env: Env) returns (reply: Reply)
      modifies tables
      ensures (tables.Contents(), reply) == Created(old(tables.Contents()), request, env)
    {
      if !env.related {
        return Failed;
      }
      var agent := ProcessAgentCreate(AsAgent(request), env);
      if agent.None? {
        return Failed;
      }
      var id := tables.CreateAgent(agent.value, env.insert);
      if id.None? {
        return Failed;
      }
      if agent.value.botSync {
        return Crashed;
      }
      var bot := tables.CreateBot(BotFor(id.value, agent.value, env.services), env.botInsert);
      if bot.None? {
        return Replied(agent.value);
      }
      var row := tables.UpdateAgent(id.value, Linked(agent.value, bot.value), env.link);
      if row.None? {
        var _ := tables.DeleteBot(bot.value, env.cleanup);
        return Failed;
      }
      return Replied(row.value);
    }

    /** UpdateAgentBot: rewrites the agent's bot or creates one. */
    method UpdateAgentBot(id: nat, agent: Agent, env: Env) returns (bot: Option<nat>)
      requires agent.botId.None? ==> !agent.botSync
      modifies tables
      ensures (tables.Contents(), bot) ==
        if agent.botId.None? then InsertedBot(old(tables.Contents()), BotFor(id, agent, env.services), env.botInsert)
        else
          var (s, ok) := UpdatedBot(old(tables.Contents()), agent.botId.value, BotFor(id, agent, env.services),
            env.botWrite);
          (s, if ok then agent.botId else None)
    {
      if agent.botId.None? {
        bot := tables.CreateBot(BotFor(id, agent, env.services), env.botInsert);
        return bot;
      }
      var ok := tables.UpdateBot(agent.botId.value, BotFor(id, agent, env.services), env.botWrite);
      return if ok then agent.botId else None;
    }

    method Update(request: Request, id: nat, env: Env, catalog: Catalog) returns (reply: Reply)
      modifies tables
      ensures (tables.Contents(), reply) == Updated(old(tables.Contents()), request, id, env, catalog)
    {
      var current := GetByID(id, env, catalog);
      if current.None? || !env.related {
        return Failed;
      }
      var processed := ProcessAgentUpdate(current.value, AsAgent(request), env);
      if processed.None? {
        return Failed;
      }
      var agent := tables.UpdateAgent(id, processed.value, env.write);
      if agent.None? {
        return Failed;
      }
      if agent.value.botId.None? && agent.value.botSync {
        return Crashed;
      }
      var bot := UpdateAgentBot(id, agent.value, env);
      if bot.None? {
        return Replied(if agent.value.botId.Some? then agent.value.(botSync := true) else agent.value);
      }
      var row := tables.UpdateAgent(id, Linked(agent.value, bot.value), env.link);
      return if row.Some? then Replied(row.value) else Failed;
    }

    method Delete(id: nat, env: Env, catalog: Catalog) returns (reply: Reply)
      modifies tables
      ensures (tables.Contents(), reply) == DeletedAgent(old(tables.Contents()), id, env, catalog)
    {
      var agent := GetByID(id, env, catalog);
      if agent.None? {
        return Failed;
      }
      if agent.value.botId.Some? && agent.value.botSync {
        var deleted := tables.DeleteBot(agent.value.botId.value, env.botDelete);
        if !deleted {
          var _ := tables.DeleteBot(agent.value.botId.value, env.botDeleteRetry);
        }
      }
      var ok := tables.DeleteAgent(id, env.remove);
      return if ok then Deleted else Failed;
    }

    method ImportOne(item: Option<Request>, env: Env) returns (ok: bool)
      modifies tables
      ensures (tables.Contents(), ok) == ImportedOne(old(tables.Contents()), item, env)
    {
      if item.None? || !env.related {
        return false;
      }
      var agent := ProcessAgentCreate(AsAgent(item.value), env);
      if agent.None? {
        return false;
      }
      var id := tables.CreateAgent(agent.value, env.insert);
      return id.Some?;
    }

    method ImportAgents(items: seq<Option<Request>>, envs: nat -> Env) returns (ok: bool)
      modifies tables
      ensures (tables.Contents(), ok) == Imported(old(tables.Contents()), items, envs)
    {
      for i := 0 to |items|
        invariant (tables.Contents(), true) == Imported(old(tables.Contents()), items[..i], envs)
      {
        assert items[..i + 1][..i] == items[..i];
        var item := ImportOne(items[i], envs(i));
        if !item {
          ImportStops(old(tables.Contents()), items, i + 1, envs);
          return false;
        }
      }
      assert items[..|items|] == items;
      return true;
    }

    method AssignFolder(id: nat, folder: Option<nat>, env: Env) returns (reply: Reply)
      modifies tables
      ensures (tables.Contents(), reply) == FolderAssigned(old(tables.Contents()), id, folder, env)
    {
      if !env.read || id !in tables.agents {
        return Failed;
      }
      var row: Option<Agent>;
      if folder.None? {
        row := tables.RemoveFolder(id, env.write);
      } else {
        if !env.related {
          return Failed;
        }
        row := tables.UpdateAgent(id, EMPTY_PATCH.(folder := folder), env.write);
      }
      return if row.Some? then Replied(row.value) else Failed;
    }
  }
}
