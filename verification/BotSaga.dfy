/** Agents and their bots live in two tables written one statement at a time.
    What holds between the tables after any run, whatever writes fail. */
module BotSaga {
  import opened Wrappers
  import opened AgentModel
  import opened ToolCatalog
  import opened ReadPath
  import opened AgentTables
  import opened AgentService
  import opened AgentRuns

  /** The bots some agent points at. */
  function LinkedBots(s: Store): set<nat> {
    set id | id in s.agents && s.agents[id].botId.Some? :: s.agents[id].botId.value
  }

  /** The bots nobody points at. */
  function Orphans(s: Store): set<nat> {
    s.bots.Keys - LinkedBots(s)
  }

  predicate SharesNoBot(agents: map<nat, Agent>) {
    forall i, j ::
      i in agents && j in agents && agents[i].botId.Some? && agents[i].botId == agents[j].botId ==> i == j
  }

  predicate SyncMeansBot(agents: map<nat, Agent>) {
    forall id :: id in agents ==> (agents[id].botSync <==> agents[id].botId.Some?)
  }

  /** A set sync flag means a bot id and the other way round, and no two agents
      share a bot. */
  predicate Links(s: Store) {
    FreshIds(s) && SyncMeansBot(s.agents) && SharesNoBot(s.agents)
  }

  /** No more orphans than writes that failed, and while none failed, the bots
      are exactly those of the synced agents. */
  predicate Counted(s: Store) {
    && |Orphans(s)| <= s.failed
    && (s.failed == 0 ==> s.bots.Keys == LinkedBots(s))
  }

  predicate Consistent(s: Store) {
    Links(s) && Counted(s)
  }

  lemma LinkedBotsHas(s: Store, id: nat)
    requires id in s.agents && s.agents[id].botId.Some?
    ensures s.agents[id].botId.value in LinkedBots(s)
  {
  }

  lemma SmallerSet(small: set<nat>, large: set<nat>)
    requires small <= large
    ensures |small| <= |large|
  {
    if small != {} {
      var x :| x in small;
      SmallerSet(small - {x}, large - {x});
    }
  }

  lemma UnionBound(left: set<nat>, right: set<nat>)
    ensures |left + right| <= |left| + |right|
  {
    assert left + right == left + (right - left);
    SmallerSet(right - left, right);
  }

  /** Each step may orphan at most as many bots as writes failed in it. */
  lemma CountOrphans(s: Store, t: Store, extra: set<nat>)
    requires |Orphans(s)| <= s.failed
    requires Orphans(t) <= Orphans(s) + extra
    requires s.failed + |extra| <= t.failed
    ensures |Orphans(t)| <= t.failed
  {
    SmallerSet(Orphans(t), Orphans(s) + extra);
    UnionBound(Orphans(s), extra);
  }

  /** The same agents point at the same bots. */
  ghost predicate SameLinks(s: Store, t: Store) {
    && t.agents.Keys == s.agents.Keys
    && (forall id :: id in s.agents ==>
      t.agents[id].botId == s.agents[id].botId && t.agents[id].botSync == s.agents[id].botSync)
    && t.bots.Keys == s.bots.Keys
    && t.nextAgent == s.nextAgent && t.nextBot == s.nextBot
    && t.failed >= s.failed
  }

  lemma SameLinkedBots(s: Store, t: Store)
    requires SameLinks(s, t)
    ensures LinkedBots(t) == LinkedBots(s)
  {
    forall b ensures b in LinkedBots(t) <==> b in LinkedBots(s) {
      if b in LinkedBots(s) {
        var id :| id in s.agents && s.agents[id].botId == Some(b);
        LinkedBotsHas(t, id);
      }
      if b in LinkedBots(t) {
        var id :| id in t.agents && t.agents[id].botId == Some(b);
        LinkedBotsHas(s, id);
      }
    }
  }

  lemma SameLinksConsistent(s: Store, t: Store)
    requires SameLinks(s, t)
    ensures Links(s) ==> Links(t)
    ensures Consistent(s) ==> Consistent(t)
  {
    SameLinkedBots(s, t);
    assert Orphans(t) == Orphans(s);
  }

  /** A partial write that carries no link, or the row's own, moves no link. */
  lemma WriteKeepsLinks(s: Store, id: nat, patch: Agent, fault: WriteFault)
    requires id in s.agents ==>
      (patch.botId.None? || patch.botId == s.agents[id].botId) && (patch.botSync ==> s.agents[id].botSync)
    ensures var (t, row) := UpdatedAgent(s, id, patch, fault);
      SameLinks(s, t) && (row.Some? ==> id in t.agents && row.value == t.agents[id])
  {
  }

  lemma PreparedKeepsLinks(s: Store, id: nat, loaded: Agent, env: Env, catalog: Catalog)
    requires id in s.agents ==> loaded.botId == s.agents[id].botId && loaded.botSync == s.agents[id].botSync
    ensures SameLinks(s, Prepared(s, id, loaded, env, catalog).0)
  {
    WriteKeepsLinks(s, id, Sanitized(loaded), env.repair);
  }

  lemma GotKeepsLinks(s: Store, id: nat, env: Env, catalog: Catalog)
    ensures var (t, agent) := Got(s, id, env, catalog);
      && SameLinks(s, t)
      && (agent.Some? ==>
            id in t.agents && agent.value.botId == t.agents[id].botId && agent.value.botSync == t.agents[id].botSync)
  {
    if env.read && id in s.agents {
      PreparedKeepsLinks(s, id, s.agents[id], env, catalog);
    }
  }

  lemma {:induction false} ListedKeepsLinks(s: Store, page: seq<(nat, Agent)>, envs: nat -> Env, catalog: Catalog)
    requires forall i :: 0 <= i < |page| ==> page[i].0 in s.agents && page[i].1 == s.agents[page[i].0]
    ensures SameLinks(s, Listed(s, page, envs, catalog).0)
  {
    if page != [] {
      var n := |page| - 1;
      ListedKeepsLinks(s, page[..n], envs, catalog);
      var t := Listed(s, page[..n], envs, catalog).0;
      PreparedKeepsLinks(t, page[n].0, page[n].1, envs(n), catalog);
    }
  }

  lemma LinkedBotsAfterInsert(s: Store, t: Store, agent: Agent)
    requires FreshIds(s) && agent.botId.None? && t.agents == s.agents[s.nextAgent := agent]
    ensures LinkedBots(t) == LinkedBots(s)
  {
    forall b ensures b in LinkedBots(t) <==> b in LinkedBots(s) {
      if b in LinkedBots(s) {
        var id :| id in s.agents && s.agents[id].botId == Some(b);
        LinkedBotsHas(t, id);
      }
      if b in LinkedBots(t) {
        var id :| id in t.agents && t.agents[id].botId == Some(b);
        LinkedBotsHas(s, id);
      }
    }
  }

  lemma FailingKeepsConsistent(s: Store)
    requires Consistent(s)
    ensures Consistent(Failing(s))
  {
    SameLinksConsistent(s, Failing(s));
  }

  /** A new agent arrives without a bot. */
  lemma InsertKeepsConsistent(s: Store, agent: Agent, works: bool)
    requires Consistent(s) && agent.botId.None? && !agent.botSync
    ensures var (t, id) := InsertedAgent(s, agent, works);
      Consistent(t) && (id.Some? ==> id.value in t.agents && t.agents[id.value] == agent)
  {
    var t := InsertedAgent(s, agent, works).0;
    if works {
      LinkedBotsAfterInsert(s, t, agent);
      assert Orphans(t) == Orphans(s);
      assert FreshIds(t);
    } else {
      FailingKeepsConsistent(s);
    }
  }

  /** Where the tables stand after linking a bot that was just created. */
  ghost predicate Linking(s: Store, t: Store, id: nat, linked: bool) {
    var b := s.nextBot;
    && t.agents.Keys == s.agents.Keys && id in s.agents
    && (forall other :: other in s.agents && other != id ==> t.agents[other] == s.agents[other])
    && (if linked then t.agents[id].botId == Some(b) && t.agents[id].botSync else t.agents[id] == s.agents[id])
    && t.nextAgent == s.nextAgent && t.nextBot == b + 1
  }

  lemma LinkingKeepsLinks(s: Store, t: Store, id: nat, linked: bool)
    requires Links(s) && id in s.agents && s.agents[id].botId.None?
    requires Linking(s, t, id, linked)
    requires t.bots.Keys <= s.bots.Keys + {s.nextBot}
    ensures Links(t)
  {
    assert FreshIds(t);
    assert SharesNoBot(t.agents);
  }

  lemma LinkedBotsAfterLink(s: Store, t: Store, id: nat, b: nat)
    requires id in s.agents && s.agents[id].botId.None?
    requires t.agents.Keys == s.agents.Keys && t.agents[id].botId == Some(b)
    requires forall other :: other in s.agents && other != id ==> t.agents[other] == s.agents[other]
    ensures LinkedBots(t) == LinkedBots(s) + {b}
  {
    LinkedBotsHas(t, id);
    forall c ensures c in LinkedBots(t) <==> c in LinkedBots(s) + {b} {
      if c in LinkedBots(s) {
        var other :| other in s.agents && s.agents[other].botId == Some(c);
        LinkedBotsHas(t, other);
      }
    }
  }

  lemma LinkingKeepsCount(s: Store, t: Store, id: nat, linked: bool)
    requires Consistent(s) && id in s.agents && s.agents[id].botId.None?
    requires Linking(s, t, id, linked)
    requires t.bots.Keys == s.bots.Keys + {s.nextBot} || (t.failed > s.failed && t.bots.Keys == s.bots.Keys)
    requires t.failed >= s.failed + if linked then 0 else 1
    ensures Counted(t)
  {
    var b := s.nextBot;
    if linked {
      LinkedBotsAfterLink(s, t, id, b);
      CountOrphans(s, t, {});
    } else {
      assert t.agents == s.agents;
      assert LinkedBots(t) == LinkedBots(s);
      CountOrphans(s, t, {b});
    }
  }

  lemma LinkedWrite(s: Store, id: nat, agent: Agent, bot: Bot, fault: WriteFault)
    requires id in s.agents && s.agents[id] == agent
    ensures var (t, row) := UpdatedAgent(InsertedBot(s, bot, true).0, id, Linked(agent, s.nextBot), fault);
      && Linking(s, t, id, !fault.Refused?)
      && t.bots.Keys == s.bots.Keys + {s.nextBot}
      && t.failed == s.failed + (if row.Some? then 0 else 1)
      && (row.None? <==> !fault.Done?)
  {
  }

  /** Linking a bot that was just created, when the link may fail. */
  lemma LinkNewBot(s: Store, id: nat, agent: Agent, bot: Bot, fault: WriteFault)
    requires Consistent(s) && id in s.agents && s.agents[id] == agent && agent.botId.None?
    ensures var (t, row) := UpdatedAgent(InsertedBot(s, bot, true).0, id, Linked(agent, s.nextBot), fault);
      Consistent(t)
  {
    var (t, row) := UpdatedAgent(InsertedBot(s, bot, true).0, id, Linked(agent, s.nextBot), fault);
    LinkedWrite(s, id, agent, bot, fault);
    LinkingKeepsLinks(s, t, id, !fault.Refused?);
    LinkingKeepsCount(s, t, id, !fault.Refused?);
  }

  /** Create takes a bot it could not link down again; that may fail too. */
  lemma CleanupKeepsConsistent(s: Store, id: nat, agent: Agent, bot: Bot, fault: WriteFault, works: bool)
    requires Consistent(s) && id in s.agents && s.agents[id] == agent && agent.botId.None? && !fault.Done?
    ensures Consistent(RemovedBot(UpdatedAgent(InsertedBot(s, bot, true).0, id, Linked(agent, s.nextBot), fault).0,
      s.nextBot, works).0)
  {
    var t := UpdatedAgent(InsertedBot(s, bot, true).0, id, Linked(agent, s.nextBot), fault).0;
    LinkedWrite(s, id, agent, bot, fault);
    LinkNewBot(s, id, agent, bot, fault);
    var u := RemovedBot(t, s.nextBot, works).0;
    if works {
      assert s.nextBot !in s.bots;
      assert u.bots.Keys == s.bots.Keys;
      LinkingKeepsLinks(s, u, id, !fault.Refused?);
      LinkingKeepsCount(s, u, id, !fault.Refused?);
    } else {
      FailingKeepsConsistent(t);
    }
  }

  lemma NewAgentBotKeepsConsistent(s: Store, id: nat, agent: Agent, env: Env)
    requires Consistent(s) && id in s.agents && s.agents[id] == agent && agent.botId.None? && !agent.botSync
    ensures Consistent(BotForNew(s, id, agent, env).0) && !BotForNew(s, id, agent, env).1.Crashed?
  {
    var bot := BotFor(id, agent, env.services);
    if !env.botInsert {
      FailingKeepsConsistent(s);
    } else {
      LinkedWrite(s, id, agent, bot, env.link);
      if env.link.Done? {
        LinkNewBot(s, id, agent, bot, env.link);
      } else {
        CleanupKeepsConsistent(s, id, agent, bot, env.link, env.cleanup);
      }
    }
  }

  lemma BotWriteKeepsLinks(s: Store, b: nat, patch: Bot, fault: WriteFault)
    ensures SameLinks(s, UpdatedBot(s, b, patch, fault).0) && UpdatedBot(s, b, patch, fault).0.agents == s.agents
  {
  }

  /** Linking an agent to the bot it already has. */
  lemma RelinkKeepsConsistent(s: Store, id: nat, agent: Agent, b: nat, env: Env)
    requires Consistent(s) && id in s.agents && s.agents[id] == agent && agent.botId == Some(b)
    ensures Consistent(Link(s, id, agent, b, env).0)
  {
    WriteKeepsLinks(s, id, Linked(agent, b), env.link);
    SameLinksConsistent(s, UpdatedAgent(s, id, Linked(agent, b), env.link).0);
  }

  lemma RewrittenBotKeepsConsistent(s: Store, id: nat, agent: Agent, env: Env)
    requires Consistent(s) && id in s.agents && s.agents[id] == agent && agent.botId.Some?
    ensures Consistent(BotForUpdated(s, id, agent, env).0)
  {
    var b, bot := agent.botId.value, BotFor(id, agent, env.services);
    var s1 := UpdatedBot(s, b, bot, env.botWrite).0;
    BotWriteKeepsLinks(s, b, bot, env.botWrite);
    SameLinksConsistent(s, s1);
    RelinkKeepsConsistent(s1, id, agent, b, env);
  }

  lemma UpdatedAgentBotKeepsConsistent(s: Store, id: nat, agent: Agent, env: Env)
    requires Consistent(s) && id in s.agents && s.agents[id] == agent
    ensures Consistent(BotForUpdated(s, id, agent, env).0) && !BotForUpdated(s, id, agent, env).1.Crashed?
  {
    if agent.botId.Some? {
      RewrittenBotKeepsConsistent(s, id, agent, env);
    } else if env.botInsert {
      LinkNewBot(s, id, agent, BotFor(id, agent, env.services), env.link);
    } else {
      FailingKeepsConsistent(s);
    }
  }

  /** What deleting an agent's bot, with its one retry, can do. */
  lemma DroppedBotEffect(s: Store, agent: Agent, env: Env)
    ensures var t := DroppedBot(s, agent, env);
      && t.agents == s.agents && t.nextAgent == s.nextAgent && t.nextBot == s.nextBot && t.failed >= s.failed
      && t.bots.Keys <= s.bots.Keys
      && (agent.botId.None? ==> t == s)
      && (agent.botId.Some? ==> s.bots.Keys - {agent.botId.value} <= t.bots.Keys)
      && (agent.botId.Some? && agent.botSync && agent.botId.value in t.bots ==> t.failed > s.failed)
  {
  }

  lemma FewerAgentsKeepLinks(s: Store, t: Store, id: nat)
    requires Links(s)
    requires t.agents == s.agents || t.agents == s.agents - {id}
    requires t.bots.Keys <= s.bots.Keys && t.nextAgent == s.nextAgent && t.nextBot == s.nextBot
    ensures Links(t)
  {
    assert FreshIds(t);
    assert SharesNoBot(t.agents);
  }

  lemma LinkedBotsAfterRemove(s: Store, t: Store, id: nat)
    requires id in s.agents && t.agents == s.agents - {id}
    requires SharesNoBot(s.agents)
    ensures LinkedBots(t) == LinkedBots(s) - (if s.agents[id].botId.Some? then {s.agents[id].botId.value} else {})
  {
    forall b ensures b in LinkedBots(t) <==>
      b in LinkedBots(s) && s.agents[id].botId != Some(b)
    {
      if b in LinkedBots(s) && s.agents[id].botId != Some(b) {
        var other :| other in s.agents && s.agents[other].botId == Some(b);
        assert other != id;
        LinkedBotsHas(t, other);
      }
      if b in LinkedBots(t) {
        var other :| other in t.agents && t.agents[other].botId == Some(b);
        LinkedBotsHas(s, other);
      }
    }
  }

  lemma DeleteKeepsCount(s: Store, id: nat, agent: Agent, env: Env)
    requires Consistent(s) && id in s.agents && env.remove
    requires agent.botId == s.agents[id].botId && agent.botSync == s.agents[id].botSync
    ensures Counted(RemovedAgent(DroppedBot(s, agent, env), id, true).0)
  {
    var s1 := DroppedBot(s, agent, env);
    var t := RemovedAgent(s1, id, true).0;
    DroppedBotEffect(s, agent, env);
    assert LinkedBots(s1) == LinkedBots(s);
    LinkedBotsAfterRemove(s1, t, id);
    if agent.botId.Some? && agent.botId.value in s1.bots {
      CountOrphans(s, t, {agent.botId.value});
    } else {
      CountOrphans(s, t, {});
    }
  }

  /** Deleting an agent after its bot. */
  lemma DeleteKeepsConsistent(s: Store, id: nat, agent: Agent, env: Env)
    requires Consistent(s) && id in s.agents
    requires agent.botId == s.agents[id].botId && agent.botSync == s.agents[id].botSync
    ensures Consistent(RemovedAgent(DroppedBot(s, agent, env), id, env.remove).0)
  {
    var s1 := DroppedBot(s, agent, env);
    var t := RemovedAgent(s1, id, env.remove).0;
    DroppedBotEffect(s, agent, env);
    FewerAgentsKeepLinks(s, t, id);
    if env.remove {
      DeleteKeepsCount(s, id, agent, env);
    } else {
      assert LinkedBots(t) == LinkedBots(s);
      CountOrphans(s, t, {});
    }
  }

  lemma ProcessedCarriesNoLink(agents: map<nat, Agent>, current: Agent, request: Request, env: Env)
    ensures var created := ProcessedCreate(agents, AsAgent(request), env);
      created.Some? ==> created.value.botId.None? && !created.value.botSync
    ensures var updated := ProcessedUpdate(agents, current, AsAgent(request), env);
      updated.Some? ==> updated.value.botId.None? && !updated.value.botSync
  {
  }

  lemma CreateKeepsConsistent(s: Store, request: Request, env: Env)
    requires Consistent(s)
    ensures Consistent(Created(s, request, env).0) && !Created(s, request, env).1.Crashed?
  {
    var processed := ProcessedCreate(s.agents, AsAgent(request), env);
    if env.related && processed.Some? {
      ProcessedCarriesNoLink(s.agents, AsAgent(request), request, env);
      InsertKeepsConsistent(s, processed.value, env.insert);
      var (s1, id) := InsertedAgent(s, processed.value, env.insert);
      if id.Some? {
        NewAgentBotKeepsConsistent(s1, id.value, processed.value, env);
      }
    }
  }

  lemma {:induction false} ImportKeepsConsistent(s: Store, items: seq<Option<Request>>, envs: nat -> Env)
    requires Consistent(s)
    ensures Consistent(Imported(s, items, envs).0)
  {
    if items != [] {
      var n := |items| - 1;
      ImportKeepsConsistent(s, items[..n], envs);
      var s1 := Imported(s, items[..n], envs).0;
      if items[n].Some? {
        ProcessedCarriesNoLink(s1.agents, AsAgent(items[n].value), items[n].value, envs(n));
        var processed := ProcessedCreate(s1.agents, AsAgent(items[n].value), envs(n));
        if processed.Some? {
          InsertKeepsConsistent(s1, processed.value, envs(n).insert);
        }
      }
    }
  }

  lemma WrittenBackKeepsConsistent(s: Store, id: nat, processed: Option<Agent>, env: Env)
    requires Consistent(s) && (processed.Some? ==> processed.value.botId.None? && !processed.value.botSync)
    ensures Consistent(WrittenBack(s, id, processed, env).0) && !WrittenBack(s, id, processed, env).1.Crashed?
  {
    if processed.Some? {
      WriteKeepsLinks(s, id, processed.value, env.write);
      var (t, row) := UpdatedAgent(s, id, processed.value, env.write);
      SameLinksConsistent(s, t);
      if row.Some? {
        UpdatedAgentBotKeepsConsistent(t, id, row.value, env);
      }
    }
  }

  lemma UpdatedFromKeepsConsistent(got: (Store, Option<Agent>), request: Request, id: nat, env: Env)
    requires Consistent(got.0)
    ensures Consistent(UpdatedFrom(got, request, id, env).0) && !UpdatedFrom(got, request, id, env).1.Crashed?
  {
    if got.1.Some? {
      ProcessedCarriesNoLink(got.0.agents, got.1.value, request, env);
      WrittenBackKeepsConsistent(got.0, id, ProcessedUpdate(got.0.agents, got.1.value, AsAgent(request), env), env);
    }
  }

  lemma GotKeepsConsistent(s: Store, id: nat, env: Env, catalog: Catalog)
    requires Consistent(s)
    ensures Consistent(Got(s, id, env, catalog).0)
  {
    GotKeepsLinks(s, id, env, catalog);
    SameLinksConsistent(s, Got(s, id, env, catalog).0);
  }

  lemma UpdateKeepsConsistent(s: Store, request: Request, id: nat, env: Env, catalog: Catalog)
    requires Consistent(s)
    ensures Consistent(Updated(s, request, id, env, catalog).0) && !Updated(s, request, id, env, catalog).1.Crashed?
  {
    GotKeepsConsistent(s, id, env, catalog);
    UpdatedFromKeepsConsistent(Got(s, id, env, catalog), request, id, env);
  }

  lemma PageKeepsConsistent(s: Store, ids: seq<nat>, envs: nat -> Env, catalog: Catalog)
    requires Consistent(s)
    ensures Consistent(Listed(s, PageOf(s.agents, ids), envs, catalog).0)
  {
    PageRows(s.agents, ids);
    ListedKeepsLinks(s, PageOf(s.agents, ids), envs, catalog);
    SameLinksConsistent(s, Listed(s, PageOf(s.agents, ids), envs, catalog).0);
  }

  lemma FolderKeepsConsistent(s: Store, id: nat, folder: Option<nat>, env: Env)
    requires Consistent(s)
    ensures Consistent(FolderAssigned(s, id, folder, env).0)
  {
    WriteKeepsLinks(s, id, EMPTY_PATCH.(folder := folder), env.write);
    assert SameLinks(s, FolderAssigned(s, id, folder, env).0);
    SameLinksConsistent(s, FolderAssigned(s, id, folder, env).0);
  }

  lemma DeletedKeepsConsistent(s: Store, id: nat, env: Env, catalog: Catalog)
    requires Consistent(s)
    ensures Consistent(DeletedAgent(s, id, env, catalog).0)
  {
    GotKeepsLinks(s, id, env, catalog);
    var (s1, agent) := Got(s, id, env, catalog);
    SameLinksConsistent(s, s1);
    if agent.Some? {
      DeleteKeepsConsistent(s1, id, agent.value, env);
    }
  }

  lemma StepKeepsConsistent(s: Store, op: Op, catalog: Catalog)
    requires Consistent(s)
    ensures Consistent(Step(s, op, catalog).0)
  {
    match op {
      case Create(request, env) => CreateKeepsConsistent(s, request, env);
      case Import(items, envs) => ImportKeepsConsistent(s, items, envs);
      case Update(request, id, env) => UpdateKeepsConsistent(s, request, id, env, catalog);
      case Delete(id, env) => DeletedKeepsConsistent(s, id, env, catalog);
      case GetOne(id, env) => GotKeepsConsistent(s, id, env, catalog);
      case ListPage(query, _, envs) => PageKeepsConsistent(s, query(s.agents), envs, catalog);
      case AssignFolder(id, folder, env) => FolderKeepsConsistent(s, id, folder, env);
    }
  }

  /** The nil bot CreateAgentBot returns for a synced agent is never reached. */
  lemma StepNeverCrashes(s: Store, op: Op, catalog: Catalog)
    requires Consistent(s)
    ensures Step(s, op, catalog).1 != OfWrite(Crashed)
  {
    match op {
      case Create(request, env) => CreateKeepsConsistent(s, request, env);
      case Update(request, id, env) => UpdateKeepsConsistent(s, request, id, env, catalog);
      case _ =>
    }
  }

  /** Over every run from empty tables (or any consistent ones), whatever fails:
      the invariant holds at the end and no call dereferenced a nil bot. */
  lemma {:induction false} RunsKeepConsistent(s: Store, ops: seq<Op>, catalogs: seq<Catalog>)
    requires |ops| == |catalogs|
    requires Consistent(s)
    ensures Consistent(Run(s, ops, catalogs).0)
    ensures OfWrite(Crashed) !in Run(s, ops, catalogs).1
    decreases |ops|
  {
    if ops != [] {
      StepKeepsConsistent(s, ops[0], catalogs[0]);
      StepNeverCrashes(s, ops[0], catalogs[0]);
      RunsKeepConsistent(Step(s, ops[0], catalogs[0]).0, ops[1..], catalogs[1..]);
    }
  }
}
