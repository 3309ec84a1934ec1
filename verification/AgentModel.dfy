/** The agent row, its kinds and the partial write the repository performs. */
module AgentModel {
  import opened Wrappers
  import opened Json

  /** The `type` column. `Unset` is the empty string, `Unknown` any text outside
      the kinds the service dispatches on. */
  datatype Kind =
    | Unset | LLM | External | A2A | Workflow | Task
    | Sequential | Parallel | Loop
    | Unknown(name: string)

  predicate IsFlow(kind: Kind) {
    kind.Sequential? || kind.Parallel? || kind.Loop?
  }

  /** The characters an agent name may keep. */
  predicate NameChar(c: char) {
    'a' <= c <= 'z' || 'A' <= c <= 'Z' || '0' <= c <= '9' || c == '_'
  }

  /** One row of the agents table, keyed elsewhere by its id. `description`
      stands for every plain text column the service copies without reading. */
  datatype Agent = Agent(
    name: string,
    description: string,
    kind: Kind,
    model: string,
    cardUrl: string,
    folder: Option<nat>,
    config: Text,
    botId: Option<nat>,
    botSync: bool)

  /** The repository's partial write: zero-valued fields of the patch leave the
      column alone, so nothing can be cleared and `botSync` cannot be reset. */
  function Patched(row: Agent, patch: Agent): Agent {
    Agent(
      OrElse(patch.name, row.name),
      OrElse(patch.description, row.description),
      if patch.kind.Unset? then row.kind else patch.kind,
      OrElse(patch.model, row.model),
      OrElse(patch.cardUrl, row.cardUrl),
      if patch.folder.None? then row.folder else patch.folder,
      if patch.config.Blank? then row.config else patch.config,
      if patch.botId.None? then row.botId else patch.botId,
      patch.botSync || row.botSync)
  }

  /** The calls that leave this service and whose answers are taken as given:
      UUID parsing and printing, printing of a non-string id, and the official
      MCP catalog, which names the environment variables a server requires. */
  datatype Services = Services(
    parseUuid: string -> Option<nat>,
    printUuid: nat -> string,
    format: Value -> string,
    requiredEnv: nat -> Option<set<string>>)
}
