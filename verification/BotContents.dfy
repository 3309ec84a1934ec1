/** What the bot rows hold: after one call, and after any run of calls. The key a
    bot answers to is the one its agent had when the bot was last written. */
module BotContents {
  import opened Wrappers
  import opened Json
  import opened AgentModel
  import opened ToolCatalog
  import opened ReadPath
  import opened AgentTables
  import opened AgentService
  import opened AgentRuns
  import opened BotSaga
  import opened ServiceMerge

  // ----- A bot of an agent -----

  /** The non-empty text an agent's config stores as its key. */
  predicate StoresKey(config: Text, key: string) {
    match config
    case Document(fields) => "api_key" in fields && fields["api_key"] == Str(key) && key != ""
    case _ => false
  }

  /** The bot is the agent's and has its key, or the derived one of an agent that
      stores none. */
  ghost predicate HasKeyOf(bot: Bot, id: nat, agent: Agent, services: Services) {
    && bot.agentId == id
    && (forall key :: StoresKey(agent.config, key) ==> bot.apiKey == key)
    && ((forall key :: !StoresKey(agent.config, key)) ==> bot.apiKey == "evo-ai-bot-" + services.printUuid(id))
  }

  /** A new bot has the agent's name and description. */
  predicate HasNamesOf(bot: Bot, agent: Agent) {
    bot.name == agent.name && bot.description == agent.description
  }

  /** A rewritten bot does too, unless the agent's are empty. */
  predicate HasNamesOrKeeps(bot: Bot, former: Bot, agent: Agent) {
    && bot.name == (if agent.name != "" then agent.name else former.name)
    && bot.description == (if agent.description != "" then agent.description else former.description)
  }

  lemma BotForIs(id: nat, agent: Agent, services: Services)
    ensures HasKeyOf(BotFor(id, agent, services), id, agent, services) && HasNamesOf(BotFor(id, agent, services), agent)
    ensures BotFor(id, agent, services).apiKey != ""
  {
    if HoldsText(Fields(agent.config), "api_key") {
      assert StoresKey(agent.config, Fields(agent.config)["api_key"].s);
    }
  }

  // ----- One call -----

  /** Every bot is as it was, or was written for the agent and has its key. */
  ghost predicate BotsAfter(s: Store, t: Store, id: nat, b: nat, services: Services) {
    forall c :: c in t.bots ==>
      || (c in s.bots && t.bots[c] == s.bots[c])
      || (c == b && id in t.agents && HasKeyOf(t.bots[c], id, t.agents[id], services))
  }

  /** Creating a bot for an agent without one, and linking it. */
  lemma BotIsInserted(s: Store, id: nat, agent: Agent, env: Env)
    requires id in s.agents && s.agents[id] == agent && agent.botId == None && !agent.botSync
    ensures var (t, reply) := BotForNew(s, id, agent, env);
      && BotsAfter(s, t, id, s.nextBot, env.services) && t.agents.Keys == s.agents.Keys
      && (forall other :: other in s.agents && other != id ==> t.agents[other] == s.agents[other])
      && t.agents[id].botId in {None, Some(s.nextBot)}
      && (!env.botInsert ==> t.bots == s.bots)
      && (reply.Replied? && env.botInsert ==>
            && t.agents[id].botId == Some(s.nextBot) && s.nextBot in t.bots
            && HasKeyOf(t.bots[s.nextBot], id, t.agents[id], env.services)
            && HasNamesOf(t.bots[s.nextBot], t.agents[id]))
  {
    BotForIs(id, agent, env.services);
  }

  lemma UpdatedBotHas(s: Store, id: nat, agent: Agent, b: nat, env: Env)
    requires b in s.bots && env.botWrite != Refused
    ensures var t := UpdatedBot(s, b, BotFor(id, agent, env.services), env.botWrite).0;
      && t.agents == s.agents && t.bots.Keys == s.bots.Keys
      && (forall c :: c in s.bots && c != b ==> t.bots[c] == s.bots[c])
      && HasKeyOf(t.bots[b], id, agent, env.services) && HasNamesOrKeeps(t.bots[b], s.bots[b], agent)
  {
    BotForIs(id, agent, env.services);
  }

  /** Rewriting the bot an agent has. */
  lemma BotIsRewritten(s: Store, id: nat, agent: Agent, b: nat, env: Env)
    requires id in s.agents && s.agents[id] == agent && agent.botId == Some(b)
    ensures var (t, reply) := BotForUpdated(s, id, agent, env);
      && BotsAfter(s, t, id, b, env.services) && t.agents.Keys == s.agents.Keys
      && (forall other :: other in s.agents && other != id ==> t.agents[other] == s.agents[other])
      && t.agents[id].botId == Some(b)
      && (env.botWrite == Refused || b !in s.bots ==> t.bots == s.bots)
      && (env.botWrite != Refused && b in s.bots ==>
            && b in t.bots
            && HasKeyOf(t.bots[b], id, t.agents[id], env.services)
            && HasNamesOrKeeps(t.bots[b], s.bots[b], t.agents[id]))
  {
    if env.botWrite != Refused && b in s.bots {
      UpdatedBotHas(s, id, agent, b, env);
    }
  }

  /** An update gives an agent without a bot one, as a create does. */
  lemma BotIsAdded(s: Store, id: nat, agent: Agent, env: Env)
    requires id in s.agents && s.agents[id] == agent && agent.botId == None && !agent.botSync
    ensures var (t, reply) := BotForUpdated(s, id, agent, env);
      && BotsAfter(s, t, id, s.nextBot, env.services) && t.agents.Keys == s.agents.Keys
      && (forall other :: other in s.agents && other != id ==> t.agents[other] == s.agents[other])
      && t.agents[id].botId in {None, Some(s.nextBot)}
      && (!env.botInsert ==> t.bots == s.bots && t.agents == s.agents)
      && (reply.Replied? && env.botInsert ==>
            && t.agents[id].botId == Some(s.nextBot) && s.nextBot in t.bots
            && HasKeyOf(t.bots[s.nextBot], id, t.agents[id], env.services)
            && HasNamesOf(t.bots[s.nextBot], t.agents[id]))
  {
    BotForIs(id, agent, env.services);
  }

  /** After a create that answers: the agent is linked to a new bot of its own, with
      its key, name and description, or no bot could be written. */
  lemma CreatedBotHolds(s: Store, request: Request, env: Env)
    requires Created(s, request, env).1.Replied?
    ensures var t := Created(s, request, env).0;
      && s.nextAgent in t.agents
      && (!env.botInsert ==> t.bots == s.bots)
      && (env.botInsert ==>
            && t.agents[s.nextAgent].botId == Some(s.nextBot) && s.nextBot in t.bots
            && HasKeyOf(t.bots[s.nextBot], s.nextAgent, t.agents[s.nextAgent], env.services)
            && HasNamesOf(t.bots[s.nextBot], t.agents[s.nextAgent]))
  {
    var agent := ProcessedCreate(s.agents, AsAgent(request), env).value;
    ProcessedCarriesNoLink(s.agents, AsAgent(request), request, env);
    BotIsInserted(InsertedAgent(s, agent, env.insert).0, s.nextAgent, agent, env);
  }

  /** The update gets as far as its bot step. */
  predicate ReachesBot(s: Store, request: Request, id: nat, env: Env, catalog: Catalog) {
    var (s0, got) := Got(s, id, env, catalog);
    got.Some? && env.related && env.write == Done && ProcessedUpdate(s0.agents, got.value, AsAgent(request), env).Some?
  }

  /** The row it hands to that step: linked as it was. */
  lemma RowBeforeBot(s: Store, request: Request, id: nat, env: Env, catalog: Catalog) returns (s1: Store, row: Agent)
    requires ReachesBot(s, request, id, env, catalog)
    ensures id in s.agents && id in s1.agents && s1.agents[id] == row && s1.bots == s.bots && s1.nextBot == s.nextBot
    ensures s1.agents.Keys == s.agents.Keys
    ensures forall other :: other in s.agents && other != id ==> s1.agents[other] == s.agents[other]
    ensures row.botId == s.agents[id].botId && row.botSync == s.agents[id].botSync
    ensures Updated(s, request, id, env, catalog) == BotForUpdated(s1, id, row, env)
  {
    var (s0, got) := Got(s, id, env, catalog);
    var patch := ProcessedUpdate(s0.agents, got.value, AsAgent(request), env).value;
    ProcessedCarriesNoLink(s0.agents, got.value, request, env);
    GotKeepsLinks(s, id, env, catalog);
    s1 := UpdatedAgent(s0, id, patch, env.write).0;
    row := s1.agents[id];
  }

  /** After an update that answers: a bot the agent had is rewritten with its key, and
      its name and description where it has some; one it lacked is created, with all
      three; or the write failed and no bot changed. */
  lemma UpdatedBotHolds(s: Store, request: Request, id: nat, env: Env, catalog: Catalog)
    requires Updated(s, request, id, env, catalog).1.Replied?
    ensures id in s.agents && id in Updated(s, request, id, env, catalog).0.agents
    ensures var t := Updated(s, request, id, env, catalog).0;
      match s.agents[id].botId
      case Some(b) =>
        && t.agents[id].botId == Some(b)
        && (b !in s.bots || env.botWrite == Refused ==> t.bots == s.bots)
        && (b in s.bots && env.botWrite != Refused ==>
              && b in t.bots && HasKeyOf(t.bots[b], id, t.agents[id], env.services)
              && HasNamesOrKeeps(t.bots[b], s.bots[b], t.agents[id]))
      case None =>
        && (!env.botInsert ==> t.bots == s.bots)
        && (env.botInsert ==>
              && t.agents[id].botId == Some(s.nextBot) && s.nextBot in t.bots
              && HasKeyOf(t.bots[s.nextBot], id, t.agents[id], env.services)
              && HasNamesOf(t.bots[s.nextBot], t.agents[id]))
  {
    var s1, row := RowBeforeBot(s, request, id, env, catalog);
    if row.botId.Some? {
      BotIsRewritten(s1, id, row, row.botId.value, env);
    } else {
      BotIsAdded(s1, id, row, env);
    }
  }

  // ----- Bots point back -----

  /** Each linked bot that exists is of the agent that links it. */
  predicate PointsBack(s: Store) {
    forall a :: a in s.agents && s.agents[a].botId.Some? && s.agents[a].botId.value in s.bots ==>
      s.bots[s.agents[a].botId.value].agentId == a
  }

  /** A call that writes at most the bot `b` of agent `id`, new or its own. */
  ghost predicate WritesOnly(s: Store, t: Store, id: nat, b: nat, services: Services) {
    && BotsAfter(s, t, id, b, services)
    && (forall a :: a in t.agents && a != id && t.agents[a].botId.Some? ==>
          a in s.agents && s.agents[a].botId == t.agents[a].botId)
    && (id in t.agents ==> t.agents[id].botId in {None, Some(b)})
    && (id in s.agents && s.agents[id].botId.Some? ==> s.agents[id].botId == Some(b))
    && ((id in s.agents && s.agents[id].botId == Some(b)) || b == s.nextBot)
  }

  lemma WritesKeepPointing(s: Store, t: Store, id: nat, b: nat, services: Services)
    requires Links(s) && PointsBack(s) && WritesOnly(s, t, id, b, services)
    ensures PointsBack(t)
  {
    forall a | a in t.agents && t.agents[a].botId.Some? && t.agents[a].botId.value in t.bots
      ensures t.bots[t.agents[a].botId.value].agentId == a
    {
      var c := t.agents[a].botId.value;
      if a != id {
        assert s.agents[a].botId == Some(c) && c != b;
      }
    }
  }

  lemma CreateWritesOnly(s: Store, request: Request, env: Env)
    requires Links(s)
    ensures WritesOnly(s, Created(s, request, env).0, s.nextAgent, s.nextBot, env.services)
  {
    var processed := ProcessedCreate(s.agents, AsAgent(request), env);
    if env.related && processed.Some? && env.insert {
      ProcessedCarriesNoLink(s.agents, AsAgent(request), request, env);
      BotIsInserted(InsertedAgent(s, processed.value, true).0, s.nextAgent, processed.value, env);
    }
  }

  /** No bot is written, and no agent linked to another. */
  ghost predicate KeepsBots(s: Store, t: Store) {
    && (forall c :: c in t.bots ==> c in s.bots && t.bots[c] == s.bots[c])
    && (forall a :: a in t.agents && t.agents[a].botId.Some? ==>
      a in s.agents && s.agents[a].botId == t.agents[a].botId)
  }

  lemma ReadKeepsBots(s: Store, id: nat, env: Env, catalog: Catalog)
    ensures KeepsBots(s, Got(s, id, env, catalog).0)
  {
    GotKeepsLinks(s, id, env, catalog);
  }

  lemma StoppedUpdateKeepsBots(s: Store, request: Request, id: nat, env: Env, catalog: Catalog)
    requires !ReachesBot(s, request, id, env, catalog)
    ensures KeepsBots(s, Updated(s, request, id, env, catalog).0)
    ensures Updated(s, request, id, env, catalog).1 == Failed
  {
    ReadKeepsBots(s, id, env, catalog);
    var (s0, got) := Got(s, id, env, catalog);
    if got.Some? && env.related {
      var patch := ProcessedUpdate(s0.agents, got.value, AsAgent(request), env);
      ProcessedCarriesNoLink(s0.agents, got.value, request, env);
      if patch.Some? {
        WriteKeepsLinks(s0, id, patch.value, env.write);
      }
    }
  }

  /** The bot an update may write: the agent's, else a new one. */
  function BotOf(s: Store, id: nat): nat {
    if id in s.agents && s.agents[id].botId.Some? then s.agents[id].botId.value else s.nextBot
  }

  lemma ReachedBotIsWritten(s: Store, request: Request, id: nat, env: Env, catalog: Catalog)
    requires Links(s) && ReachesBot(s, request, id, env, catalog)
    ensures WritesOnly(s, Updated(s, request, id, env, catalog).0, id, BotOf(s, id), env.services)
  {
    var s1, row := RowBeforeBot(s, request, id, env, catalog);
    if row.botId.Some? {
      BotIsRewritten(s1, id, row, row.botId.value, env);
    } else {
      BotIsAdded(s1, id, row, env);
    }
  }

  lemma KeptBotsAreNotWritten(s: Store, t: Store, id: nat, services: Services)
    requires KeepsBots(s, t)
    ensures WritesOnly(s, t, id, BotOf(s, id), services)
  {
  }

  lemma UpdateWritesOnly(s: Store, request: Request, id: nat, env: Env, catalog: Catalog)
    requires Links(s)
    ensures WritesOnly(s, Updated(s, request, id, env, catalog).0, id, BotOf(s, id), env.services)
  {
    if ReachesBot(s, request, id, env, catalog) {
      ReachedBotIsWritten(s, request, id, env, catalog);
    } else {
      StoppedUpdateKeepsBots(s, request, id, env, catalog);
      KeptBotsAreNotWritten(s, Updated(s, request, id, env, catalog).0, id, env.services);
    }
  }

  lemma {:induction false} ImportKeepsBots(s: Store, items: seq<Option<Request>>, envs: nat -> Env)
    ensures KeepsBots(s, Imported(s, items, envs).0)
  {
    if items != [] {
      var n := |items| - 1;
      ImportKeepsBots(s, items[..n], envs);
      var s1 := Imported(s, items[..n], envs).0;
      if items[n].Some? {
        ProcessedCarriesNoLink(s1.agents, AsAgent(items[n].value), items[n].value, envs(n));
      }
    }
  }

  lemma {:induction false} ListKeepsBots(s: Store, page: seq<(nat, Agent)>, envs: nat -> Env, catalog: Catalog)
    ensures Listed(s, page, envs, catalog).0.bots == s.bots
  {
    if page != [] {
      ListKeepsBots(s, page[..|page| - 1], envs, catalog);
    }
  }

  lemma PageKeepsBots(s: Store, ids: seq<nat>, envs: nat -> Env, catalog: Catalog)
    ensures KeepsBots(s, Listed(s, PageOf(s.agents, ids), envs, catalog).0)
  {
    PageRows(s.agents, ids);
    ListedKeepsLinks(s, PageOf(s.agents, ids), envs, catalog);
    ListKeepsBots(s, PageOf(s.agents, ids), envs, catalog);
  }

  lemma DeleteKeepsBots(s: Store, id: nat, env: Env, catalog: Catalog)
    ensures KeepsBots(s, DeletedAgent(s, id, env, catalog).0)
  {
    ReadKeepsBots(s, id, env, catalog);
    var (s1, agent) := Got(s, id, env, catalog);
    if agent.Some? {
      var s2 := DroppedBot(s1, agent.value, env);
      assert s2.agents == s1.agents && forall c :: c in s2.bots ==> c in s1.bots && s2.bots[c] == s1.bots[c];
    }
  }

  // ----- Runs -----

  /** The call wrote the bot for the agent it is of, and gave it that agent's key. */
  ghost predicate WroteBot(op: Op, t: Store, c: nat) {
    && c in t.bots && t.bots[c].agentId in t.agents
    && match op
       case Create(_, env) => HasKeyOf(t.bots[c], t.bots[c].agentId, t.agents[t.bots[c].agentId], env.services)
       case Update(_, id, env) => t.bots[c].agentId == id && HasKeyOf(t.bots[c], id, t.agents[id], env.services)
       case _ => false
  }

  ghost predicate ExplainsBots(s: Store, op: Op, t: Store) {
    forall c :: c in t.bots ==> (c in s.bots && t.bots[c] == s.bots[c]) || WroteBot(op, t, c)
  }

  lemma CreateExplainsBots(s: Store, request: Request, env: Env)
    requires Links(s) && PointsBack(s)
    ensures var t := Created(s, request, env).0; ExplainsBots(s, Op.Create(request, env), t) && PointsBack(t)
  {
    var t := Created(s, request, env).0;
    CreateWritesOnly(s, request, env);
    WritesKeepPointing(s, t, s.nextAgent, s.nextBot, env.services);
  }

  lemma UpdateExplainsBots(s: Store, request: Request, id: nat, env: Env, catalog: Catalog)
    requires Links(s) && PointsBack(s)
    ensures var t := Updated(s, request, id, env, catalog).0;
      ExplainsBots(s, Op.Update(request, id, env), t) && PointsBack(t)
  {
    var t := Updated(s, request, id, env, catalog).0;
    UpdateWritesOnly(s, request, id, env, catalog);
    WritesKeepPointing(s, t, id, BotOf(s, id), env.services);
  }

  lemma StepExplainsBots(s: Store, op: Op, catalog: Catalog)
    requires Links(s) && PointsBack(s)
    ensures ExplainsBots(s, op, Step(s, op, catalog).0) && PointsBack(Step(s, op, catalog).0)
  {
    match op {
      case Create(request, env) => CreateExplainsBots(s, request, env);
      case Update(request, id, env) => UpdateExplainsBots(s, request, id, env, catalog);
      case Import(items, envs) => ImportKeepsBots(s, items, envs);
      case GetOne(id, env) => ReadKeepsBots(s, id, env, catalog);
      case ListPage(query, _, envs) => PageKeepsBots(s, query(s.agents), envs, catalog);
      case Delete(id, env) => DeleteKeepsBots(s, id, env, catalog);
      case AssignFolder(id, folder, env) =>
    }
  }

  /** The tables before the first call and after each one. */
  ghost function Trace(s: Store, ops: seq<Op>, catalogs: seq<Catalog>): (states: seq<Store>)
    requires |ops| == |catalogs|
    ensures |states| == |ops| + 1 && states[0] == s
    decreases |ops|
  {
    if ops == [] then [s] else [s] + Trace(Step(s, ops[0], catalogs[0]).0, ops[1..], catalogs[1..])
  }

  /** What a call may do to the bots, at every point of a run. */
  ghost predicate AllExplained(states: seq<Store>, ops: seq<Op>) {
    && |states| == |ops| + 1
    && forall k :: 0 <= k < |ops| ==> ExplainsBots(states[k], ops[k], states[k + 1])
  }

  lemma ExplainedBefore(s: Store, rest: seq<Store>, op: Op, ops: seq<Op>)
    requires AllExplained(rest, ops) && ExplainsBots(s, op, rest[0])
    ensures AllExplained([s] + rest, [op] + ops)
  {
    var states, all := [s] + rest, [op] + ops;
    forall k | 0 <= k < |all| ensures ExplainsBots(states[k], all[k], states[k + 1]) {
      if k > 0 {
        assert ExplainsBots(rest[k - 1], ops[k - 1], rest[k]);
      }
    }
  }

  lemma {:induction false} TraceEnds(s: Store, ops: seq<Op>, catalogs: seq<Catalog>)
    requires |ops| == |catalogs|
    ensures Trace(s, ops, catalogs)[|ops|] == Run(s, ops, catalogs).0
    decreases |ops|
  {
    if ops != [] {
      TraceEnds(Step(s, ops[0], catalogs[0]).0, ops[1..], catalogs[1..]);
    }
  }

  lemma StepKeepsBoth(s: Store, op: Op, catalog: Catalog)
    requires Consistent(s) && PointsBack(s)
    ensures var t := Step(s, op, catalog).0; Consistent(t) && PointsBack(t) && ExplainsBots(s, op, t)
  {
    StepKeepsConsistent(s, op, catalog);
    StepExplainsBots(s, op, catalog);
  }

  /** Over every run each linked bot that exists is of the agent that links it. */
  lemma {:induction false} RunsKeepPointing(s: Store, ops: seq<Op>, catalogs: seq<Catalog>)
    requires |ops| == |catalogs| && Consistent(s) && PointsBack(s)
    ensures PointsBack(Run(s, ops, catalogs).0)
    decreases |ops|
  {
    if ops != [] {
      StepKeepsBoth(s, ops[0], catalogs[0]);
      RunsKeepPointing(Step(s, ops[0], catalogs[0]).0, ops[1..], catalogs[1..]);
    }
  }

  lemma {:induction false} RunsExplainBots(s: Store, ops: seq<Op>, catalogs: seq<Catalog>)
    requires |ops| == |catalogs| && Consistent(s) && PointsBack(s)
    ensures AllExplained(Trace(s, ops, catalogs), ops)
    decreases |ops|
  {
    if ops != [] {
      var t := Step(s, ops[0], catalogs[0]).0;
      StepKeepsBoth(s, ops[0], catalogs[0]);
      RunsExplainBots(t, ops[1..], catalogs[1..]);
      ExplainedBefore(s, Trace(t, ops[1..], catalogs[1..]), ops[0], ops[1..]);
      assert [ops[0]] + ops[1..] == ops;
    }
  }

  /** The bot row does not change from one point of a run to its end. */
  ghost predicate StaysFrom(states: seq<Store>, c: nat, from: nat) {
    forall k :: from <= k < |states| ==>
      c in states[k].bots && c in states[|states| - 1].bots && states[k].bots[c] == states[|states| - 1].bots[c]
  }

  /** The bot was there all along, or some call wrote it last. */
  ghost predicate HasHistory(states: seq<Store>, ops: seq<Op>, c: nat)
    requires |states| == |ops| + 1
  {
    || StaysFrom(states, c, 0)
    || exists i :: 0 <= i < |ops| && WroteBot(ops[i], states[i + 1], c) && StaysFrom(states, c, i + 1)
  }

  lemma StaysOneMore(states: seq<Store>, c: nat, from: nat)
    requires |states| > 1 && from < |states| - 1 && StaysFrom(states[..|states| - 1], c, from)
    requires var (t, u) := (states[|states| - 2], states[|states| - 1]);
      c in t.bots && c in u.bots && t.bots[c] == u.bots[c]
    ensures StaysFrom(states, c, from)
  {
    var before := states[..|states| - 1];
    forall k | from <= k < |states|
      ensures c in states[k].bots && states[k].bots[c] == states[|states| - 1].bots[c]
    {
      assert k < |states| - 1 ==> before[k] == states[k];
    }
  }

  lemma HistoryGrows(states: seq<Store>, ops: seq<Op>, c: nat)
    requires |states| == |ops| + 1 && ops != []
    requires HasHistory(states[..|ops|], ops[..|ops| - 1], c)
    requires var (t, u) := (states[|ops| - 1], states[|ops|]); c in t.bots && c in u.bots && t.bots[c] == u.bots[c]
    ensures HasHistory(states, ops, c)
  {
    var before, n := states[..|ops|], |ops| - 1;
    if StaysFrom(before, c, 0) {
      StaysOneMore(states, c, 0);
    } else {
      var i :| 0 <= i < n && WroteBot(ops[..n][i], before[i + 1], c) && StaysFrom(before, c, i + 1);
      StaysOneMore(states, c, i + 1);
      assert WroteBot(ops[i], states[i + 1], c);
    }
  }

  lemma {:induction false} EveryBotHasHistory(states: seq<Store>, ops: seq<Op>, c: nat)
    requires AllExplained(states, ops) && c in states[|ops|].bots
    ensures HasHistory(states, ops, c)
    decreases |ops|
  {
    if ops == [] {
      assert StaysFrom(states, c, 0);
    } else {
      var n := |ops| - 1;
      var t, u := states[n], states[n + 1];
      assert ExplainsBots(t, ops[n], u);
      if c in t.bots && t.bots[c] == u.bots[c] {
        assert AllExplained(states[..n + 1], ops[..n]);
        EveryBotHasHistory(states[..n + 1], ops[..n], c);
        HistoryGrows(states, ops, c);
      } else {
        assert WroteBot(ops[n], u, c) && StaysFrom(states, c, n + 1);
      }
    }
  }

  /** The key of the bot is the one the agent had after the call, which wrote it. */
  ghost predicate HoldsKeySince(op: Op, t: Store, bot: Bot, a: nat) {
    && a in t.agents
    && match op
       case Create(_, env) => HasKeyOf(bot, a, t.agents[a], env.services)
       case Update(_, id, env) => id == a && HasKeyOf(bot, a, t.agents[a], env.services)
       case _ => false
  }

  /** Over every run, whatever fails: a linked bot that exists is of its agent, and it
      holds the key that agent had after the call that wrote it last; a bot no call
      of the run wrote is as it was. */
  lemma LinkedBotsKeepTheirKey(s: Store, ops: seq<Op>, catalogs: seq<Catalog>, a: nat, c: nat)
    requires |ops| == |catalogs| && Consistent(s) && PointsBack(s)
    requires var end := Run(s, ops, catalogs).0; a in end.agents && end.agents[a].botId == Some(c) && c in end.bots
    ensures var (states, bot) := (Trace(s, ops, catalogs), Run(s, ops, catalogs).0.bots[c]);
      && bot.agentId == a
      && (|| (c in s.bots && bot == s.bots[c])
          || exists i :: 0 <= i < |ops| && HoldsKeySince(ops[i], states[i + 1], bot, a) && StaysFrom(states, c, i + 1))
  {
    var states := Trace(s, ops, catalogs);
    TraceEnds(s, ops, catalogs);
    RunsKeepPointing(s, ops, catalogs);
    RunsExplainBots(s, ops, catalogs);
    EveryBotHasHistory(states, ops, c);
    if !StaysFrom(states, c, 0) {
      var i :| 0 <= i < |ops| && WroteBot(ops[i], states[i + 1], c) && StaysFrom(states, c, i + 1);
      assert HoldsKeySince(ops[i], states[i + 1], states[|ops|].bots[c], a);
    }
  }
}
