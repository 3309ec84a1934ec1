/** The agents and bots tables and the writes the two repositories make to
    them, any of which may fail. */
module AgentTables {
  import opened Wrappers
  import opened Json
  import opened AgentModel

  /** The bot mirrored for an agent; its messaging settings are left out. */
  datatype Bot = Bot(name: string, description: string, agentId: nat, apiKey: string)

  /** How an UPDATE followed by its read-back ends: both happen, neither does,
      or the row is written and reading it back fails. */
  datatype WriteFault = Done | Refused | Unread

  /** Both tables, the ids the database will hand out next and the number of
      writes that have failed so far. */
  datatype Store = Store(agents: map<nat, Agent>, bots: map<nat, Bot>, nextAgent: nat, nextBot: nat, failed: nat)

  /** Ids in use were handed out before. */
  predicate FreshIds(s: Store) {
    && (forall id :: id in s.agents ==> id < s.nextAgent)
    && (forall id :: id in s.bots ==> id < s.nextBot)
    && (forall id :: id in s.agents && s.agents[id].botId.Some? ==> s.agents[id].botId.value < s.nextBot)
  }

  function Failing(s: Store): Store {
    s.(failed := s.failed + 1)
  }

  function PatchedBot(row: Bot, patch: Bot): Bot {
    Bot(OrElse(patch.name, row.name), OrElse(patch.description, row.description), patch.agentId,
      OrElse(patch.apiKey, row.apiKey))
  }

  function InsertedAgent(s: Store, agent: Agent, works: bool): (Store, Option<nat>) {
    if works then (s.(agents := s.agents[s.nextAgent := agent], nextAgent := s.nextAgent + 1), Some(s.nextAgent))
    else (Failing(s), None)
  }

  /** The partial write of an agent; a missing row fails its read-back. */
  function UpdatedAgent(s: Store, id: nat, patch: Agent, fault: WriteFault): (Store, Option<Agent>) {
    if fault.Refused? then (Failing(s), None)
    else if id !in s.agents then (s, None)
    else
      var row := Patched(s.agents[id], patch);
      var written := s.(agents := s.agents[id := row]);
      if fault.Unread? then (Failing(written), None) else (written, Some(row))
  }

  function RemovedAgent(s: Store, id: nat, works: bool): (Store, bool) {
    if works then (s.(agents := s.agents - {id}), true) else (Failing(s), false)
  }

  /** RemoveFolder: the one explicit column write, which can clear the folder. */
  function ClearedFolder(s: Store, id: nat, fault: WriteFault): (Store, Option<Agent>) {
    if fault.Refused? then (Failing(s), None)
    else if id !in s.agents then (s, None)
    else
      var row := s.agents[id].(folder := None);
      var written := s.(agents := s.agents[id := row]);
      if fault.Unread? then (Failing(written), None) else (written, Some(row))
  }

  function InsertedBot(s: Store, bot: Bot, works: bool): (Store, Option<nat>) {
    if works then (s.(bots := s.bots[s.nextBot := bot], nextBot := s.nextBot + 1), Some(s.nextBot))
    else (Failing(s), None)
  }

  function UpdatedBot(s: Store, id: nat, patch: Bot, fault: WriteFault): (Store, bool) {
    if fault.Refused? then (Failing(s), false)
    else if id !in s.bots then (s, false)
    else
      var written := s.(bots := s.bots[id := PatchedBot(s.bots[id], patch)]);
      if fault.Unread? then (Failing(written), false) else (written, true)
  }

  function RemovedBot(s: Store, id: nat, works: bool): (Store, bool) {
    if works then (s.(bots := s.bots - {id}), true) else (Failing(s), false)
  }

  /** The tables as mutable state; every method is one repository call. */
  class Tables {
    var agents: map<nat, Agent>
    var bots: map<nat, Bot>
    var nextAgent: nat
    var nextBot: nat
    var failed: nat

    function Contents(): Store
      reads this
    {
      Store(agents, bots, nextAgent, nextBot, failed)
    }

    constructor ()
      ensures Contents() == Store(map[], map[], 0, 0, 0)
    {
      agents, bots, nextAgent, nextBot, failed := map[], map[], 0, 0, 0;
    }

    method CreateAgent(agent: Agent, works: bool) returns (id: Option<nat>)
      modifies this
      ensures (Contents(), id) == InsertedAgent(old(Contents()), agent, works)
    {
      if !works {
        failed := failed + 1;
        return None;
      }
      id := Some(nextAgent);
      agents := agents[nextAgent := agent];
      nextAgent := nextAgent + 1;
    }

    method UpdateAgent(id: nat, patch: Agent, fault: WriteFault) returns (row: Option<Agent>)
      modifies this
      ensures (Contents(), row) == UpdatedAgent(old(Contents()), id, patch, fault)
    {
      if fault.Refused? {
        failed := failed + 1;
        return None;
      }
      if id !in agents {
        return None;
      }
      agents := agents[id := Patched(agents[id], patch)];
      if fault.Unread? {
        failed := failed + 1;
        return None;
      }
      return Some(agents[id]);
    }

    method DeleteAgent(id: nat, works: bool) returns (ok: bool)
      modifies this
      ensures (Contents(), ok) == RemovedAgent(old(Contents()), id, works)
    {
      if !works {
        failed := failed + 1;
        return false;
      }
      agents := agents - {id};
      return true;
    }

    method RemoveFolder(id: nat, fault: WriteFault) returns (row: Option<Agent>)
      modifies this
      ensures (Contents(), row) == ClearedFolder(old(Contents()), id, fault)
    {
      if fault.Refused? {
        failed := failed + 1;
        return None;
      }
      if id !in agents {
        return None;
      }
      agents := agents[id := agents[id].(folder := None)];
      if fault.Unread? {
        failed := failed + 1;
        return None;
      }
      return Some(agents[id]);
    }

    method CreateBot(bot: Bot, works: bool) returns (id: Option<nat>)
      modifies this
      ensures (Contents(), id) == InsertedBot(old(Contents()), bot, works)
    {
      if !works {
        failed := failed + 1;
        return None;
      }
      id := Some(nextBot);
      bots := bots[nextBot := bot];
      nextBot := nextBot + 1;
    }

    method UpdateBot(id: nat, patch: Bot, fault: WriteFault) returns (ok: bool)
      modifies this
      ensures (Contents(), ok) == UpdatedBot(old(Contents()), id, patch, fault)
    {
      if fault.Refused? {
        failed := failed + 1;
        return false;
      }
      if id !in bots {
        return false;
      }
      bots := bots[id := PatchedBot(bots[id], patch)];
      if fault.Unread? {
        failed := failed + 1;
        return false;
      }
      return true;
    }

    method DeleteBot(id: nat, works: bool) returns (ok: bool)
      modifies this
      ensures (Contents(), ok) == RemovedBot(old(Contents()), id, works)
    {
      if !works {
        failed := failed + 1;
        return false;
      }
      bots := bots - {id};
      return true;
    }
  }
}
