/** What an agent's kind makes of it once its config was processed: which agents are
    accepted, and the exact row each kind stores. */
module AcceptedKinds {
  import opened Wrappers
  import opened Json
  import opened AgentModel
  import opened Positions
  import opened TypeProcessors

  /** The object a text column holds; every other text holds none. */
  function ObjectIn(config: Text): Object {
    match config
    case Document(fields) => fields
    case _ => map[]
  }

  // ----- References to other agents -----

  predicate IsAgentId(v: Value, help: Help) {
    match v
    case Str(text) => (match help.services.parseUuid(text) case Some(id) => help.known(id) case None => false)
    case _ => false
  }

  predicate ListsAgents(o: Object, key: string, help: Help) {
    && key in o && o[key].Arr?
    && forall i :: 0 <= i < |o[key].items| ==> IsAgentId(o[key].items[i], help)
  }

  predicate IsTask(v: Value, help: Help) {
    v.Obj? && "agent_id" in v.fields && IsAgentId(v.fields["agent_id"], help)
  }

  predicate ListsTasks(o: Object, help: Help) {
    && "tasks" in o && o["tasks"].Arr? && |o["tasks"].items| > 0
    && forall i :: 0 <= i < |o["tasks"].items| ==> IsTask(o["tasks"].items[i], help)
  }

  /** A task agent lists tasks and agents; a flow at least one agent. */
  predicate NamesItsAgents(kind: Kind, o: Object, help: Help) {
    match kind
    case Task => ListsTasks(o, help) && ListsAgents(o, "sub_agents", help)
    case Sequential => ListsAgents(o, "sub_agents", help) && |o["sub_agents"].items| > 0
    case Parallel => ListsAgents(o, "sub_agents", help) && |o["sub_agents"].items| > 0
    case Loop => ListsAgents(o, "sub_agents", help) && |o["sub_agents"].items| > 0
    case Workflow => true
    case _ => false
  }

  // ----- The card of a remote agent -----

  predicate IsWord(c: char) {
    c == '_' || ('a' <= c && c <= 'z') || ('A' <= c && c <= 'Z') || ('0' <= c && c <= '9')
  }

  predicate EndsRun(text: string, i: nat) {
    i + 1 >= |text| || IsWord(text[i + 1])
  }

  /** The characters a card name keeps: the word characters and, for each run of
      others, the last. */
  ghost function Kept(text: string): set<nat> {
    set i: nat | i < |text| && (IsWord(text[i]) || EndsRun(text, i))
  }

  ghost predicate WrittenAt(text: string, name: string, at: seq<nat>) {
    && InOrder(at, Kept(text)) && |at| == |name|
    && forall k :: 0 <= k < |name| ==> at[k] < |text| && name[k] == if IsWord(text[at[k]]) then text[at[k]] else '_'
  }

  /** Each word character stays, each run of others becomes one underscore. */
  ghost predicate IsCardName(text: string, name: string) {
    exists at :: WrittenAt(text, name, at)
  }

  lemma KeptLater(text: string, i: nat)
    requires text != ""
    ensures i in Kept(text[1..]) <==> i + 1 in Kept(text)
  {
    if i < |text| - 1 {
      assert text[1..][i] == text[i + 1];
      assert EndsRun(text[1..], i) == EndsRun(text, i + 1);
    }
  }

  /** The places of a text without its first character, moved up by one. */
  function MovedUp(at: seq<nat>): (moved: seq<nat>)
    ensures |moved| == |at| && forall k :: 0 <= k < |at| ==> moved[k] == at[k] + 1
  {
    seq(|at|, k requires 0 <= k < |at| => at[k] + 1)
  }

  lemma MovedUpInOrder(text: string, rest: seq<nat>)
    requires text != "" && InOrder(rest, Kept(text[1..]))
    ensures InOrder(MovedUp(rest), Kept(text) - {0})
  {
    var at := MovedUp(rest);
    forall i ensures i in at <==> i in Kept(text) - {0} {
      if i > 0 {
        KeptLater(text, i - 1);
        if i - 1 in rest {
          var k :| 0 <= k < |rest| && rest[k] == i - 1;
          assert at[k] == i;
        }
      }
    }
  }

  lemma FirstAdded(at: seq<nat>, wanted: set<nat>)
    requires InOrder(at, wanted - {0}) && 0 in wanted
    ensures InOrder([0] + at, wanted)
  {
    forall k | 0 <= k < |at| ensures at[k] > 0 {
      assert at[k] in at;
    }
  }

  lemma WrittenAfter(text: string, name: string, rest: seq<nat>, first: string)
    requires text != "" && WrittenAt(text[1..], name, rest)
    requires first == if 0 in Kept(text) then [if IsWord(text[0]) then text[0] else '_'] else ""
    ensures WrittenAt(text, first + name, if 0 in Kept(text) then [0] + MovedUp(rest) else MovedUp(rest))
  {
    MovedUpInOrder(text, rest);
    forall k | 0 <= k < |rest| ensures text[MovedUp(rest)[k]] == text[1..][rest[k]] {}
    if 0 in Kept(text) {
      FirstAdded(MovedUp(rest), Kept(text));
    } else {
      assert Kept(text) - {0} == Kept(text);
    }
  }

  lemma {:induction false} CardNameIs(text: string) returns (at: seq<nat>)
    ensures WrittenAt(text, CardName(text), at)
  {
    if text == "" {
      at := [];
    } else {
      var rest := CardNameIs(text[1..]);
      var first := if 0 in Kept(text) then [if IsWord(text[0]) then text[0] else '_'] else "";
      WrittenAfter(text, CardName(text[1..]), rest, first);
      assert CardName(text) == first + CardName(text[1..]);
      at := if 0 in Kept(text) then [0] + MovedUp(rest) else MovedUp(rest);
    }
  }

  /** The name a card offers. */
  function OfferedName(card: Object): string {
    if "name" in card && card["name"].Str? && |card["name"].s| > 0 then card["name"].s else "Unknown Agent"
  }

  /** The agent with the card in its config, and a name and description from it
      where a create or an empty column asks for them. */
  ghost predicate TakesCard(before: Agent, card: Object, isCreate: bool, after: Agent) {
    && after == before.(name := after.name, description := after.description, config := after.config)
    && after.config == Document(ObjectIn(before.config)["agent_card" := Obj(card)])
    && (if isCreate || before.name == "" then IsCardName(OfferedName(card), after.name) else after.name == before.name)
    && after.description ==
         if (isCreate || before.description == "") && "description" in card && card["description"].Str?
         then card["description"].s else before.description
  }

  lemma FromCardTakes(agent: Agent, card: Object, isCreate: bool)
    ensures TakesCard(agent, card, isCreate, FromCard(agent, card, isCreate))
  {
    var at := CardNameIs(OfferedName(card));
  }

  // ----- Creating -----

  predicate CreateAccepted(agent: Agent, help: Help) {
    match agent.kind
    case LLM => true
    case External => true
    case A2A => agent.cardUrl != "" && help.card.Some?
    case Workflow => true
    case kind => agent.config != NullText && NamesItsAgents(kind, ObjectIn(agent.config), help)
  }

  /** What a create stores: the agent, its card, or a generated key. */
  ghost predicate CreateStores(agent: Agent, help: Help, row: Agent) {
    match agent.kind
    case LLM => row == agent
    case External => row == agent
    case A2A => help.card.Some? && TakesCard(agent, help.card.value, true, row)
    case _ => row == agent.(config := Document(ObjectIn(agent.config)["api_key" := Str(help.key)]))
  }

  lemma CreatedExactly(agent: Agent, help: Help)
    ensures ForCreate(agent, help).Some? <==> CreateAccepted(agent, help)
    ensures ForCreate(agent, help).Some? ==> CreateStores(agent, help, ForCreate(agent, help).value)
  {
    if help.card.Some? {
      FromCardTakes(agent, help.card.value, true);
    }
  }

  // ----- Updating -----

  /** The object an update starts from: the current one when null was sent. */
  function BaseOf(current: Agent, request: Agent): Object {
    match request.config
    case NullText => ObjectIn(current.config)
    case config => ObjectIn(config)
  }

  /** A remote agent before or after the update, and neither an LLM nor an external
      one: these two pass before any card is asked for. */
  predicate IsRemote(current: Agent, request: Agent) {
    && request.kind != LLM && request.kind != External && current.kind != External
    && (request.kind == A2A || current.kind == A2A)
  }

  predicate PassesAsIs(current: Agent, request: Agent) {
    || request.kind == LLM || request.kind == External || current.kind == External
    || (IsRemote(current, request) && request.cardUrl == "")
  }

  predicate UpdateAccepted(current: Agent, request: Agent, help: Help) {
    || PassesAsIs(current, request)
    || (IsRemote(current, request) && help.card.Some?)
    || (!IsRemote(current, request) && NamesItsAgents(request.kind, BaseOf(current, request), help))
  }

  /** The key of the current agent, unless it has none or an empty one. */
  function KeyOf(current: Agent, generated: string): Value {
    var fields := ObjectIn(current.config);
    if "api_key" !in fields || fields["api_key"] == Str("") then Str(generated) else fields["api_key"]
  }

  ghost predicate UpdateStores(current: Agent, request: Agent, help: Help, row: Agent) {
    if PassesAsIs(current, request) then row == request
    else if IsRemote(current, request) then help.card.Some? && TakesCard(request, help.card.value, false, row)
    else row == request.(config := Document(BaseOf(current, request)["api_key" := KeyOf(current, help.key)]))
  }

  lemma KeyPreservedIs(current: Agent, request: Agent, help: Help)
    ensures KeyPreserved(current, request, help)
      == request.(config := Document(BaseOf(current, request)["api_key" := KeyOf(current, help.key)]))
  {
    var key := KeptKey(Fields(current.config), help.key);
    var base := UpdateBase(current.config, request.config);
    assert Fields(request.config) + WithKey(base, key) == base["api_key" := key];
  }

  lemma UpdatedExactly(current: Agent, request: Agent, help: Help)
    ensures ForUpdate(current, request, help).Some? <==> UpdateAccepted(current, request, help)
    ensures ForUpdate(current, request, help).Some? ==>
      UpdateStores(current, request, help, ForUpdate(current, request, help).value)
  {
    KeyPreservedIs(current, request, help);
    if help.card.Some? {
      FromCardTakes(request, help.card.value, false);
    }
  }
}
