/** The processors an agent's kind selects after its config was processed. */
module TypeProcessors {
  import opened Wrappers
  import opened Json
  import opened AgentModel
  import opened ConfigProcessor

  // ----- Validation of references to other agents -----

  /** The agents a reference may name: `known` answers the table lookup. */
  predicate NamesAgent(v: Value, known: nat -> bool, services: Services) {
    v.Str? && services.parseUuid(v.s).Some? && known(services.parseUuid(v.s).value)
  }

  predicate ValidSubAgents(v: Value, known: nat -> bool, services: Services) {
    v.Arr? && forall i :: 0 <= i < |v.items| ==> NamesAgent(v.items[i], known, services)
  }

  predicate ValidTaskEntry(v: Value, known: nat -> bool, services: Services) {
    v.Obj? && NamesAgent(Get(v.fields, "agent_id"), known, services)
  }

  predicate ValidTasks(config: Object, known: nat -> bool, services: Services) {
    && HoldsList(config, "tasks")
    && forall i :: 0 <= i < |config["tasks"].items| ==> ValidTaskEntry(config["tasks"].items[i], known, services)
  }

  predicate ValidFlow(config: Object, known: nat -> bool, services: Services) {
    HoldsList(config, "sub_agents") && ValidSubAgents(config["sub_agents"], known, services)
  }

  method ValidateSubAgents(v: Value, known: nat -> bool, services: Services) returns (ok: bool)
    ensures ok <==> ValidSubAgents(v, known, services)
  {
    if !v.Arr? {
      return false;
    }
    for i := 0 to |v.items|
      invariant forall j :: 0 <= j < i ==> NamesAgent(v.items[j], known, services)
    {
      if !v.items[i].Str? {
        return false;
      }
      var id := services.parseUuid(v.items[i].s);
      if id.None? || !known(id.value) {
        return false;
      }
    }
    return true;
  }

  method ValidateFlowConfig(config: Object, known: nat -> bool, services: Services) returns (ok: bool)
    ensures ok <==> ValidFlow(config, known, services)
  {
    if !HoldsList(config, "sub_agents") {
      return false;
    }
    ok := ValidateSubAgents(config["sub_agents"], known, services);
  }

  method ValidateTaskConfig(config: Object, known: nat -> bool, services: Services) returns (ok: bool)
    ensures ok <==> ValidTasks(config, known, services)
  {
    if !HoldsList(config, "tasks") {
      return false;
    }
    var tasks := config["tasks"].items;
    for i := 0 to |tasks|
      invariant forall j :: 0 <= j < i ==> ValidTaskEntry(tasks[j], known, services)
    {
      if !tasks[i].Obj? || !Get(tasks[i].fields, "agent_id").Str? {
        return false;
      }
      var id := services.parseUuid(tasks[i].fields["agent_id"].s);
      if id.None? || !known(id.value) {
        return false;
      }
    }
    return true;
  }

  // ----- Processors -----

  /** A run of other characters becomes one underscore. */
  function CardName(name: string): string {
    if name == "" then ""
    else if NameChar(name[0]) then [name[0]] + CardName(name[1..])
    else if |name| > 1 && !NameChar(name[1]) then CardName(name[1..])
    else "_" + CardName(name[1..])
  }

  /** The answers a processor needs from outside: a key to generate and the
      agent card behind the request's URL. */
  datatype Help = Help(key: string, card: Option<Object>, known: nat -> bool, services: Services)

  function WithKey(config: Object, key: Value): Object {
    config["api_key" := key]
  }

  function FromCard(agent: Agent, card: Object, isCreate: bool): Agent {
    var cardName := if Get(card, "name").Str? && Get(card, "name").s != "" then Get(card, "name").s
      else "Unknown Agent";
    agent.(
      name := if isCreate || agent.name == "" then CardName(cardName) else agent.name,
      description := if (isCreate || agent.description == "") && Get(card, "description").Str?
                     then Get(card, "description").s else agent.description,
      config := Document(Fields(agent.config)["agent_card" := Obj(card)]))
  }

  /** The api_key an update keeps: the current one unless absent or the empty
      string. A non-string current key is kept as it is. */
  function KeptKey(current: Object, generated: string): Value {
    if "api_key" in current && current["api_key"] != Str("") then current["api_key"] else Str(generated)
  }

  /** The config the flow, task and workflow updates start from: the request's,
      or the current one when the request's decodes to nil. */
  function UpdateBase(current: Text, request: Text): Object {
    if request.NullText? then Fields(current) else Fields(request)
  }

  function KeyPreserved(current: Agent, request: Agent, help: Help): Agent {
    request.(config := Document(Fields(request.config)
      + WithKey(UpdateBase(current.config, request.config), KeptKey(Fields(current.config), help.key))))
  }

  function ForCreate(agent: Agent, help: Help): Option<Agent> {
    var config := Fields(agent.config);
    match agent.kind
    case LLM => Some(agent)
    case External => Some(agent)
    case A2A =>
      if agent.cardUrl == "" || help.card.None? then None else Some(FromCard(agent, help.card.value, true))
    case Workflow => Some(agent.(config := Document(WithKey(config, Str(help.key)))))
    case Task =>
      if !agent.config.NullText? && ValidTasks(config, help.known, help.services)
         && ValidSubAgents(Get(config, "sub_agents"), help.known, help.services)
      then Some(agent.(config := Document(WithKey(config, Str(help.key))))) else None
    case _ =>
      if IsFlow(agent.kind) && !agent.config.NullText? && ValidFlow(config, help.known, help.services)
      then Some(agent.(config := Document(WithKey(config, Str(help.key))))) else None
  }

  function ForUpdate(current: Agent, request: Agent, help: Help): Option<Agent> {
    var base := UpdateBase(current.config, request.config);
    if request.kind.LLM? then Some(request)
    else if request.kind.External? || current.kind.External? then Some(request)
    else if request.kind.A2A? || current.kind.A2A? then
      if request.cardUrl == "" then Some(request)
      else if help.card.None? then None
      else Some(FromCard(request, help.card.value, false))
    else if request.kind.Workflow? then Some(KeyPreserved(current, request, help))
    else if request.kind.Task? then
      if ValidTasks(base, help.known, help.services)
        && ValidSubAgents(Get(base, "sub_agents"), help.known, help.services)
      then Some(KeyPreserved(current, request, help)) else None
    else if IsFlow(request.kind) then
      if ValidFlow(base, help.known, help.services) then Some(KeyPreserved(current, request, help)) else None
    else None
  }

  method AttachCard(agent: Agent, card: Object) returns (updated: Agent)
    ensures updated == agent.(config := Document(Fields(agent.config)["agent_card" := Obj(card)]))
  {
    var config := Fields(agent.config)["agent_card" := Obj(card)];
    assert Fields(agent.config) + config == config;
    var text := UpdateConfig(agent.config, config);
    updated := agent.(config := text);
  }

  method UpdateFromCard(agent: Agent, card: Object, isCreate: bool) returns (updated: Agent)
    ensures updated == FromCard(agent, card, isCreate)
  {
    updated := agent;
    if isCreate || updated.name == "" {
      var cardName := if Get(card, "name").Str? then Get(card, "name").s else "";
      if cardName == "" {
        cardName := "Unknown Agent";
      }
      updated := updated.(name := CardName(cardName));
    }
    if isCreate || updated.description == "" {
      if Get(card, "description").Str? {
        updated := updated.(description := Get(card, "description").s);
      }
    }
    updated := AttachCard(updated, card);
  }

  method StoreWithKey(agent: Agent, config: Object, key: Value) returns (updated: Agent)
    ensures updated == agent.(config := Document(Fields(agent.config) + WithKey(config, key)))
  {
    var text := UpdateConfig(agent.config, config["api_key" := key]);
    updated := agent.(config := text);
  }

  lemma OverlayOnItself(config: Object, key: Value)
    ensures config + WithKey(config, key) == WithKey(config, key)
  {
  }

  method ProcessForCreate(agent: Agent, help: Help) returns (processed: Option<Agent>)
    ensures processed == ForCreate(agent, help)
  {
    var config := Fields(agent.config);
    OverlayOnItself(config, Str(help.key));
    match agent.kind {
      case LLM => return Some(agent);
      case External => return Some(agent);
      case A2A =>
        if agent.cardUrl == "" || help.card.None? {
          return None;
        }
        var updated := UpdateFromCard(agent, help.card.value, true);
        return Some(updated);
      case Workflow =>
        var updated := StoreWithKey(agent, config, Str(help.key));
        return Some(updated);
      case Task =>
        if agent.config.NullText? {
          return None;
        }
        var tasksOk := ValidateTaskConfig(config, help.known, help.services);
        var subAgentsOk := ValidateSubAgents(Get(config, "sub_agents"), help.known, help.services);
        if !tasksOk || !subAgentsOk {
          return None;
        }
        var updated := StoreWithKey(agent, config, Str(help.key));
        return Some(updated);
      case _ =>
        if !IsFlow(agent.kind) || agent.config.NullText? {
          return None;
        }
        var flowOk := ValidateFlowConfig(config, help.known, help.services);
        if !flowOk {
          return None;
        }
        var updated := StoreWithKey(agent, config, Str(help.key));
        return Some(updated);
    }
  }

  method ProcessForUpdate(current: Agent, request: Agent, help: Help) returns (processed: Option<Agent>)
    ensures processed == ForUpdate(current, request, help)
  {
    if request.kind.LLM? || request.kind.External? || current.kind.External? {
      return Some(request);
    }
    if request.kind.A2A? || current.kind.A2A? {
      if request.cardUrl == "" {
        return Some(request);
      }
      if help.card.None? {
        return None;
      }
      var updated := UpdateFromCard(request, help.card.value, false);
      return Some(updated);
    }
    var decoded := Decode(request.config);
    if decoded.None? {
      decoded := Some(Fields(current.config));
    }
    if request.kind.Task? {
      var tasksOk := ValidateTaskConfig(decoded.value, help.known, help.services);
      var subAgentsOk := ValidateSubAgents(Get(decoded.value, "sub_agents"), help.known, help.services);
      if !tasksOk || !subAgentsOk {
        return None;
      }
    } else if IsFlow(request.kind) {
      var flowOk := ValidateFlowConfig(decoded.value, help.known, help.services);
      if !flowOk {
        return None;
      }
    } else if !request.kind.Workflow? {
      return None;
    }
    var updated := StoreWithKey(request, decoded.value, KeptKey(Fields(current.config), help.key));
    return Some(updated);
  }

  // ----- Laws -----

  /** The fallback to the current config is dead once the request's config is an
      object: the outcome depends on the current agent's kind and key only. */
  lemma UpdateIgnoresCurrentConfig(current: Agent, other: Agent, request: Agent, help: Help)
    requires request.config.Document?
    requires current.kind == other.kind
    requires Get(Fields(current.config), "api_key") == Get(Fields(other.config), "api_key")
    requires "api_key" in Fields(current.config) <==> "api_key" in Fields(other.config)
    ensures ForUpdate(current, request, help) == ForUpdate(other, request, help)
  {
  }
}
