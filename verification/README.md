# A verified model of the agent core service

This project models the parts of the agent core service (a Go service over
PostgreSQL) whose behaviour is hard to see from one function, and proves what
they keep. `dafny verify dfyconfig.toml` checks all of it.

| part | files |
|---|---|
| JSON values, text columns, string functions and what they do to a text, positions of a list | `Json`, `Strings`, `TextLaws`, `Positions`, `Wrappers` |
| Agent configs: the processing pipeline, the merge on update, the repair and expansion on read | `AgentModel`, `ConfigProcessor`, `ConfigMerge`, `TypeProcessors`, `ReadPath`, `ServiceMerge`, `UpdatesInARow` |
| What is accepted, stored and shown, key by key | `AcceptedConfig`, `AcceptedKinds`, `ReadShows`, `StoredAgents` |
| The agent service over its two tables, whole runs of it, and the agent/bot saga | `AgentTables`, `AgentService`, `AgentRuns`, `BotSaga`, `BotContents` |
| The tool catalog and the cache shared by a page of agents | `ToolCatalog`, `ToolCache` |
| The credential vault: reconciliation with live connections, the delete guard, patches and hints, the reference index | `Vault`, `VaultRows`, `VaultTurns`, `VaultSync`, `VaultRuns`, `CredentialPatch`, `ApiKeyPatch`, `VaultColumns`, `ReferenceIndex`, `ReferenceCounts`, `LabelOrder` |
| Two small compilers: list filters to SQL, path templates to endpoints | `FilterSql`, `FilterLexer`, `FilterCompiler`, `FilterClauses`, `FilterMeaning`, `PathTemplate`, `PathTemplateOrder`, `PathTemplatePairs`, `PathEncoding` |
| Protocols: tenant write routing, the quota check, the rate limiter | `TenantRouting`, `TenantArrival`, `QuotaRace`, `RateLimiter` |
| Redaction and merging back of secrets | `SecretMerge`, `HiddenValues` |

## How the model is built

Code that updates state is modelled by methods and classes with loops; each is
proved equal to a function of its inputs or of the old state, and the laws are
lemmas about those functions. Beside them each operation has a law in literal
terms - the column and field names, operators, providers, defaults and SQL of the
service, and positions in lists - that names none of the functions the operation
is computed with: `AcceptedConfig`, `AcceptedKinds`, `ReadShows`, `StoredAgents`,
`BotContents`, `FilterClauses`, `PathEncoding`, `TenantArrival`, `VaultColumns`,
`ReferenceCounts`, `HiddenValues` and `TextLaws` hold these.

Tables are maps that only the repository methods change. A partial write
(`Updates` of a struct) writes the non-zero fields.
Every external call - a write, a read, a fetch, key generation, UUID parsing,
decryption - is a parameter, and every write may fail before it happens. The
partial writes, which the repositories read back, may also succeed and fail in
the read-back (`Unread`, `readBack`); an insert, a delete, an upsert and a
deactivation are not read back. So "over every run" means over every pattern of
failures too.

Text columns are classified by what decoding them yields: blank, unparsable,
the literal `null`, or an object. Go strings are sequences of characters;
lower-casing is ASCII, the same for Go and SQL.

## Where the code says something else than its comments or an obvious claim

* An update drops `custom_tools` beside a non-empty `custom_tool_ids` from the
  stored config before merging, because it takes them for an expanded copy; a
  client may have sent and stored its own (`ServiceMerge.StoredToolsAreDropped`
  is such a config). The drop shows exactly when such a key is stored and the
  request does not send it again (`ServiceMerge.DropShowsExactly`).
* A sent value is not always stored: workflow, task and flow agents keep the key
  they have on an update and get a generated one on a create, an A2A agent stores
  the card that was fetched, and a blank key counts as not sent
  (`ServiceMerge.SentValueIsStored` has the exact condition,
  `ServiceMerge.SentKeyIsOverwritten` and `ServiceMerge.CreatedKeyIsGenerated`
  the concrete cases).
* Two updates in a row are one merged update except in named cases, and then
  never: two for the merge alone (`ConfigMerge.UpdatesCompose`); for the service's
  update while the agent's type stays, those of
  `ServiceMerge.SameKindUpdatesCompose`; and for any types, read and repair
  included, those of `UpdatesInARow.TwoUpdatesAreOne`.
* An external or A2A agent updated to a flow type is not validated as a flow, so
  the reply can show a flow agent without sub-agents
  (`UpdatesInARow.ExternalBecomesFlow`; exactly when is
  `ServiceMerge.UpdateReplyIsRunnable`). The next read repairs it, and that shows:
  an n8n agent made sequential and then an LLM agent ends with the repair's
  placeholders, made an LLM agent at once it does not
  (`UpdatesInARow.RepairShowsBetween`).
* The catalogs do not reach the tables by a read (`AgentRuns.CatalogsNeverStored`),
  but a client that sends back the expanded config it read stores the expansion
  (`ServiceMerge.EchoedReadIsStored`), and later reads show that copy whatever the
  catalogs hold (`ServiceMerge.EchoFreezes`).
* A connection whose vault name is taken in its row's scope stops the sync at its
  turn: no later connection is written and nothing is deactivated, in that run
  and in every later one over the same connections (`VaultSync.Run`,
  `VaultSync.RunMany`; a static credential of that name does it,
  `VaultTurns.TakenNameBlocks`).
* The repair of a flow agent without sub-agents drops an empty placeholder and
  then copies the stored empty value back, so expansion stays off for an agent
  that stored one; whether an agent is expanded is the same before and after
  the repair (`ReadPath.RepairKeepsExpansion`).
* The fallback to the current config in the flow, task and workflow processors
  is dead: `ProcessAgentConfig` always leaves an object behind
  (`TypeProcessors.UpdateIgnoresCurrentConfig` needs nothing else).
* The expanded template depends on Go's map order. For parameter names without
  braces it does so exactly when the template nests a placeholder inside a brace
  pair (`PathTemplateOrder.OrderShowsExactlyOnNesting`). Names are free text,
  though: for names of any kind it does so exactly when an opening brace is followed
  by a closing one in more than one way
  (`PathTemplatePairs.OrderShowsExactlyOnTwoPairs`), so already for `{a}{b}`
  (`PathTemplatePairs.BracedNameShows`).
* The agents list prints a creation date unchecked, so one that is no date fails the
  whole request, where the tool and server lists drop the clause
  (`FilterMeaning.AgentsScreenFails`). A timeout the integer column cannot hold fails
  the server list the same way; `FilterMeaning.ConditionMeans` has the exact
  condition.
* `not_equal_to` keeps rows whose text column is NULL, but not rows whose date
  or timeout is NULL, and one NULL tag defeats it (`FilterMeaning.ClauseMeans`
  says which clause asks what).
* The tenant reroute is documented as fail-closed for the listed tables. It is
  skipped when the statement has no parsed schema or no context, and the write
  then runs on the pool (`TenantRouting.SchemalessWriteEscapes`; the exact
  condition is `TenantRouting.ListedWriteIsBoundOrNothing`). No write of this
  repository is of that kind: its writes on listed tables all name a model. Its
  statements on a bare table name are reads: the live connections of the sync
  (pkg/integration_credential/repository/oauth_connection_repository.go:38), the
  credential lookups (pkg/agent_integration/repository/credential_lookup.go:35,
  67), the raw reference queries
  (pkg/integration_credential/repository/reference_repository.go:169) and the
  migration-state counts
  (pkg/integration_credential/repository/migration_state_repository.go:25-86).
  Those are the reads `TenantRouting.TenantReadIsBoundOrNothing` leaves on the
  pool.
* The delete guard compares reference texts, the page parses them: a reference
  in another spelling of the same UUID is shown and not guarded
  (`ReferenceIndex.GuardWithinIndex`).
* A save of redacted headers keeps the stored secrets only if the stored row
  could be read (`SecretMerge.SaveOfReadKeeps`).

## Model

| member | source | states |
|---|---|---|
| ConfigProcessor.ProcessAgentConfig | pkg/agent/service/processor/config_processor.go:30-184 | fails with the first failing check, in the service's order, or leaves exactly the merged config: keys sent, stored and api_key, minus an unsent provider on a non-external agent |
| ConfigProcessor.OverlayIsMerged | pkg/agent/service/processor/config_processor.go:161-184 | backfilling the processed map and laying it over the request is the key-by-key merge |
| ConfigProcessor.BackfillStored | pkg/agent/service/processor/config_processor.go:164-181 | adds exactly the stored keys that were neither sent nor processed nor a stale provider |
| ConfigProcessor.ProcessSent | pkg/agent/service/processor/config_processor.go:113-137 | rejects exactly invalid servers or tools, otherwise mirrors the request up to normalisation |
| ConfigProcessor.ValidateOutputSchema | pkg/agent/service/processor/config_processor.go:198-241 | accepts exactly the schemas whose every field is well formed |
| ConfigProcessor.ProcessMCPServers | pkg/agent/service/processor/config_processor.go:243-345 | all servers valid or an error; each normalised |
| ConfigProcessor.ProcessTools | pkg/agent/service/processor/config_processor.go:347-375 | all tools valid or an error; each normalised |
| ConfigProcessor.UpdateConfig | pkg/agent/service/config/handler.go:11-28 | the stored document with the updates laid over it, whatever the text was |
| AcceptedConfig.AcceptedExactly | pkg/agent/service/processor/config_processor.go:71-159 | a config is accepted if and only if it passes five checks, and refused for the first it fails: no preloading without loading, a schema of the six types, servers whose variables are all given, a list of tool objects, and one of the five providers for an external agent |
| AcceptedConfig.StoredExactly | pkg/agent/service/processor/config_processor.go:36-184 | which keys an accepted config is stored with and what each holds: the api_key sent, else stored, else generated; the eight columns of a tool; id, environments, tools and, off the twelve integrations, the references of a server; ids as texts; any other key as sent, else as stored |
| ConfigMerge.NormalizedIdempotent | pkg/agent/service/processor/config_processor.go:113-137 | normalising a normalised value changes nothing |
| ConfigMerge.ResubmittingIsIdentity | pkg/agent/service/processor/config_processor.go:30-184 | sending back what a create stored is accepted and changes nothing |
| ConfigMerge.UpdatesCompose | pkg/agent/service/processor/config_processor.go:161-184 | two accepted updates equal one update with the second laid over the first, if and only if no provider is lost and no blank api_key is sent over a set one |
| ServiceMerge.DropShowsExactly | pkg/agent/service/agent_service.go:371-378 | dropping the expanded copies before the merge changes its result if and only if a key beside a non-empty id list is stored and not sent again |
| ServiceMerge.StoredToolsAreDropped | pkg/agent/service/agent_service.go:220-227 | a config whose client stored `custom_tools` of its own beside an id list loses them to an update that sends nothing |
| ServiceMerge.SentValueIsStored | pkg/agent/service/agent_service.go:220-248 | a sent value is stored, up to normalisation, if and only if it is not a key the type overwrites or a blank one, nor a card another was fetched over |
| ServiceMerge.SentKeyIsOverwritten | pkg/agent/service/processor/workflow.go:30-48 | a workflow agent keeps the key it has, whatever key an update sends |
| ServiceMerge.CreatedKeyIsGenerated | pkg/agent/service/processor/workflow.go:19-28 | a workflow agent is created under a generated key, whatever key was sent |
| ServiceMerge.ProcessedUpdateIs | pkg/agent/service/agent_service.go:220-248 | the config an accepted update asks to store, key by key, for every pair of requested and current type |
| ServiceMerge.ProcessedCreateIs | pkg/agent/service/agent_service.go:155-180 | the config an accepted create asks to store, by type |
| ServiceMerge.StoredAfterUpdate | pkg/agent/service/agent_service.go:182-218 | the exact config in the table after a successful update, from the repaired row, whatever the catalogs answered on the way in and whatever the bot step did |
| UpdatesInARow.TwoUpdatesAreOne | pkg/agent/service/agent_service.go:182-248 | two answered updates, through any types and with the read between them, leave the config that one answered update leaves which sends both requests, if and only if no provider and no unsent copy is lost, the key and the card stay, and a repair in between is hidden by the second request |
| UpdatesInARow.KeyStaysOnRowsWithKey | pkg/agent/service/processor/workflow.go:30-48 | on a row that holds a key, what keeping the key asks of the two requests, by the types passed through |
| UpdatesInARow.RepairShowsExactly | pkg/agent/service/agent_service.go:436-495 | a repair between two updates leaves no trace if and only if every key it changes is sent again or held a value, and sub_agents was nowhere or is sent again |
| UpdatesInARow.RepairShowsBetween | pkg/agent/service/agent_service.go:182-248 | an n8n agent on which two updates and the single one differ although nothing fails |
| UpdatesInARow.ExternalBecomesFlow | pkg/agent/service/agent_service.go:229-242 | the reply to an update that makes an n8n agent sequential is a flow agent without sub-agents |
| ServiceMerge.EchoedReadIsStored | pkg/agent/service/agent_service.go:182-227 | an update that sends the config of the read before it stores the expansion that read showed |
| ServiceMerge.EchoStoresExpansion | pkg/agent/service/agent_service.go:220-227 | sending back the expanded config leaves what sending back the stored one leaves if and only if the read expanded nothing |
| ServiceMerge.EchoFreezes | pkg/agent/service/agent_service.go:291-365 | a later read shows the copy that was sent back, under any catalog |
| ServiceMerge.SameKindUpdatesCompose | pkg/agent/service/agent_service.go:220-248 | while the type stays, when two service updates go through so does the single one, and they leave the same config if and only if no provider, no unsent copy and no set key is lost and no sent card replaces a fetched one |
| ServiceMerge.UpdateReplyIsRunnable | pkg/agent/service/agent_service.go:229-242 | a reply to an update shows a flow agent without sub-agents if and only if an external or A2A agent becomes a flow and neither request nor stored config names any |
| ReadPath.RepairConfig | pkg/agent/service/agent_service.go:436-495 | the flow-to-LLM rewrite, as built, dropped from and copied back to, is the repaired config |
| ReadPath.CopyBackIsRepaired | pkg/agent/service/agent_service.go:483-490 | the drop followed by the copy-back loop yields the repaired config |
| ReadPath.RepairKeepsStoredKeys | pkg/agent/service/agent_service.go:449-492 | every stored non-null key but sub_agents survives; expandable keys are present exactly when they were |
| ReadPath.RepairKeepsExpansion | pkg/agent/service/agent_service.go:380-400 | the repair changes neither whether nor to what an agent expands |
| ReadPath.SanitizedIsFixpoint | pkg/agent/service/agent_service.go:418-504 | sanitising twice is sanitising once |
| ReadPath.DropUndoesExpand | pkg/agent/service/agent_service.go:371-378 | dropping after an expansion from any catalog leaves what dropping alone leaves |
| ReadPath.ExpandOnlyAdds | pkg/agent/service/agent_service.go:291-365 | expansion changes no key and adds only the expandable ones |
| ReadPath.DropHydratedCopies | pkg/agent/service/agent_service.go:371-378 | removes the expandable keys whose id list is not empty |
| ReadPath.DropEmptyPlaceholder | pkg/agent/service/agent_service.go:382-400 | removes a nil, empty-list or empty-map value under a non-empty id list |
| ReadPath.SanitizeName | pkg/agent/service/agent_service.go:421-434 | letters, digits and underscores stay, any other character becomes an underscore |
| ReadShows.GotShows | pkg/agent/service/agent_service.go:405-517 | a read that answers leaves the row with a cleaned name and, for a flow with no sub-agents, as an LLM agent, key by key; touches nothing else; and shows that row with the tools and servers of its ids, every other key as stored |
| ReadShows.ReadShowsServers | pkg/agent/service/agent_service.go:337-353 | on a row without servers that names ids, the reply holds what the catalog answers for exactly the ids that parse, in list order, and nothing when it fails |
| ReadShows.ReadShowsTools | pkg/agent/service/agent_service.go:299-334 | on a row without tools, the reply holds the tools of the page whose id is named, in the order of the page |
| ReadShows.PageShows | pkg/agent/service/agent_service.go:519-556 | a page is there if and only if both queries work; each item is its row as the repair leaves it, expanded unless that repair could not be written |
| ReadShows.NamedAreParsed | pkg/agent/service/agent_service.go:302-309 | the ids a list names are its texts that parse, in order |
| ReadShows.HttpToolIs | pkg/custom_tool/service/custom_tool_service.go:433-466 | which column lands under which of the eight keys, and the three error-handling defaults where the row has none |
| TypeProcessors.ProcessForCreate | pkg/agent/service/agent_service.go:155-180 | the dispatch on a new agent's type and what its processor stores |
| TypeProcessors.ProcessForUpdate | pkg/agent/service/agent_service.go:220-248 | the dispatch of an update on the requested and the current type |
| TypeProcessors.ValidateSubAgents | pkg/agent/service/validator/config.go:21-44 | accepts exactly the lists whose every item is the id of an existing agent |
| TypeProcessors.UpdateFromCard | pkg/agent/service/processor/a2a.go:48-76 | what the fetched card overwrites on create and on update |
| AcceptedKinds.CardNameIs | pkg/agent/service/processor/a2a.go:73-76 | a card name keeps its word characters in order, and each run of others is one underscore |
| AcceptedKinds.CreatedExactly | pkg/agent/service/agent_service.go:155-180 | which agents a create accepts, by type - a card, tasks, sub-agents that exist - and the row each type stores |
| AcceptedKinds.UpdatedExactly | pkg/agent/service/agent_service.go:229-248 | the same for an update, by the requested and the current type: passed as it is, with a card, or with the key it had |
| TypeProcessors.UpdateIgnoresCurrentConfig | pkg/agent/service/processor/flow.go:40-62 | beyond kind and api_key an update does not depend on the current agent's config, so the fallback to it is unreachable |
| AgentTables.Tables.UpdateAgent | pkg/agent/repository/agent_repository.go:61-68 | writes the non-zero fields of the patch, or nothing; a failed read-back keeps the write |
| AgentTables.Tables.CreateBot | pkg/agent/repository/agent_bot_repository.go:26-31 | a new bot row under a new id, or nothing |
| AgentService.Service.PrepareForRead | pkg/agent/service/agent_service.go:405-416 | repairs and persists first, expands in memory only; what the reply then holds is `ReadShows.GotShows` |
| AgentService.Service.List | pkg/agent/service/agent_service.go:519-556 | no page, and no repair, when the rows or their number cannot be read; otherwise a page prepared row by row, where a row whose repair fails is listed unexpanded |
| AgentService.Service.Create | pkg/agent/service/agent_service.go:102-133 | the tables and the reply after every pattern of failed writes, cleanup included; which row and which bot is `StoredAgents.CreatesExactly` and `BotContents.CreatedBotHolds` |
| AgentService.Service.Update | pkg/agent/service/agent_service.go:182-218 | read, merge, partial write and bot write in order, with their failures; which row and which bot is `StoredAgents.UpdatesExactly` and `BotContents.UpdatedBotHolds` |
| AgentService.Service.Delete | pkg/agent/service/agent_service.go:558-596 | bot first, with one retry, then the agent |
| AgentService.Service.ImportAgents | pkg/agent/service/agent_service.go:653-719 | stops at the first failing item and keeps the rows before it |
| AgentService.ImportStops | pkg/agent/service/agent_service.go:659-716 | what follows the first failing item has no effect |
| StoredAgents.CreatesExactly | pkg/agent/service/agent_service.go:102-180 | a create stores nothing when the request is not taken or its insert fails; otherwise the next id gets the row made of the request, every column of it, linked or not, and no other agent changes |
| StoredAgents.UpdatesExactly | pkg/agent/service/agent_service.go:182-248 | an update is refused with no more than its read done, if and only if the request is not taken; otherwise the row the read left is overwritten column by column with what the request sends, and no other agent changes |
| StoredAgents.ImportsExactly | pkg/agent/service/agent_service.go:653-719 | an import stores the items before the first that cannot be imported, each as a create would but without a bot, under consecutive ids |
| StoredAgents.DeletesExactly | pkg/agent/service/agent_service.go:558-596 | a delete takes the bot away if one of two tries works, and the agent if its own delete works |
| StoredAgents.AssignsExactly | pkg/agent/service/agent_service.go:721-747 | assigning a folder, or none, changes that column of that row only |
| AgentRuns.CatalogsNeverStored | pkg/agent/service/agent_service.go:288-416 | two runs of the same operations, requests included, under different tool and server catalogs end with the same tables and, expansion aside, the same answers |
| AgentRuns.StepAlike | pkg/agent/service/agent_service.go:182-248 | one operation from the same tables under two catalogs |
| AgentRuns.ProcessedUpdateAlike | pkg/agent/service/agent_service.go:220-248 | an update processes two expansions of one stored agent alike |
| AgentRuns.RunsKeepSound | pkg/agent/service/processor/config_processor.go:38-159 | over every run, stored configs have a non-empty api_key, preload only with load, and an external agent a supported provider |
| AgentRuns.SecondReadWritesNothing | pkg/agent/service/agent_service.go:405-504 | after a successful read a second one leaves the tables unchanged and succeeds if the row can be loaded |
| AgentRuns.RepairSurvivesPartialWrite | pkg/agent/service/agent_service.go:497-501 | the repair is not lost to the fields a partial write skips |
| AgentRuns.ReadFlowsHaveSubAgents | pkg/agent/service/agent_service.go:436-556 | every flow agent read with a config has sub-agents: the one of a single read and each one on a page, its repair written or not |
| BotSaga.RunsKeepConsistent | pkg/agent/service/evolution_service.go:34-130 | over every run with any failed writes: sync flag if and only if bot id, no shared bot, at most as many orphan bots as failed writes, none without failures; no nil bot is dereferenced |
| BotSaga.StepKeepsConsistent | pkg/agent/service/agent_service.go:102-218 | the same for one operation |
| BotSaga.StepNeverCrashes | pkg/agent/service/agent_service.go:203-210 | the nil bot returned for a synced agent is never reached |
| BotSaga.LinkNewBot | pkg/agent/service/agent_service.go:117-130 | linking a fresh bot keeps the invariant whether or not the link is written |
| BotSaga.CleanupKeepsConsistent | pkg/agent/service/evolution_service.go:125-130 | so does taking an unlinkable bot down again, which may itself fail |
| BotSaga.DeleteKeepsConsistent | pkg/agent/service/agent_service.go:558-596 | deleting bot then agent orphans a bot only when a write failed |
| BotContents.CreatedBotHolds | pkg/agent/service/evolution_service.go:34-57 | after a create that answers, the agent is linked to a bot of its own with its name, description and key - the one its config stores, else the derived one - unless the bot could not be written |
| BotContents.UpdatedBotHolds | pkg/agent/service/evolution_service.go:59-84 | after an update that answers, the bot has the agent's key, and its name and description where the agent has some; a bot that could not be written is as it was |
| BotContents.RunsKeepPointing | pkg/agent/service/evolution_service.go:158-175 | over every run, each linked bot that exists is of the agent that links it |
| BotContents.LinkedBotsKeepTheirKey | pkg/agent/service/evolution_service.go:132-142 | over every run, whatever fails: a linked bot holds the key its agent had after the call that wrote it last |
| ToolCatalog.DefaultsIdempotent | pkg/custom_tool/service/custom_tool_service.go:439-450 | filling in the defaults twice is filling them in once |
| ToolCache.ConvertToHTTPTool | pkg/custom_tool/service/custom_tool_service.go:433-466 | returns the tool and writes the defaults into the error map it shares |
| ToolCache.ListCustomTools | pkg/agent/service/agent_service.go:264-286 | the first page of the catalog, and its error, loaded at most once per cache |
| ToolCache.ExpandTools | pkg/agent/service/agent_service.go:299-335 | one agent's tools from the cached list are those of a fresh list, although converted tools share their error maps |
| ToolCache.ExpandPage | pkg/agent/service/agent_service.go:530-536 | a page through one cache: the same configs as per-agent lookups, with at most one List |
| ToolCache.ExpandEach | pkg/agent/service/agent_service.go:506-517 | the per-agent lookups a page is compared with |
| VaultRows.VaultTable.UpsertOAuthRow | pkg/integration_credential/repository/oauth_connection_repository.go:84-95 | by natural key: reactivates the row with its id, or appends one; refused if and only if there is a fault or another row of the scope has the name |
| VaultRows.VaultTable.DeactivateOAuthRow | pkg/integration_credential/repository/oauth_connection_repository.go:97-102 | switches the row of one owner off and touches nothing else |
| VaultSync.Snapshot | pkg/integration_credential/service/oauth_sync.go:53-58 | the rows by owner reference |
| VaultTurns.ClashShowsBeforehand | pkg/integration_credential/service/oauth_sync.go:60-78 | whether the upsert of a connection clashes when its turn comes can be read off the rows before the run and the connections before it |
| VaultTurns.BlocksStay | pkg/integration_credential/service/oauth_sync.go:60-78 | a run cut off anywhere in its first loop leaves exactly the same connections blocked |
| VaultTurns.TakenNameBlocks | pkg/integration_credential/service/oauth_sync.go:60-78 | a legal table on which a live connection's turn blocks: a static credential has its row's name |
| VaultSync.UpsertLive | pkg/integration_credential/service/oauth_sync.go:60-78 | the first loop: which live connections are active, how many writes it took, and at which turn a fault or a clash stopped it |
| VaultSync.DeactivateGone | pkg/integration_credential/service/oauth_sync.go:80-90 | the second loop, in any order and cut off anywhere |
| VaultSync.Run | pkg/integration_credential/service/oauth_sync.go:42-93 | succeeds if and only if nothing is mismatched any more; every completed write removes exactly one mismatch; no row goes away or changes its id; without faults it fails if and only if some connection's turn blocks; a blocked turn leaves every row behind it untouched and stays blocked |
| VaultSync.RunMany | pkg/integration_credential/service/oauth_sync.go:40-42 | over any number of runs with any faults, all writes and the final mismatch add up to the initial mismatch; after one success every later run succeeds without writing; if a turn blocks at the start none ever succeeds, otherwise each fails only by a fault |
| VaultSync.RunTwice | pkg/integration_credential/service/oauth_sync.go:40-42 | a run after a successful one succeeds and writes nothing |
| VaultSync.NoMismatch | pkg/integration_credential/service/oauth_sync.go:60-90 | nothing mismatched means one active row per live allowlisted connection and none for any other owner |
| VaultSync.MismatchLeft | pkg/integration_credential/service/oauth_sync.go:60-90 | the measure behind it |
| VaultColumns.LiveExactly | pkg/integration_credential/model/oauth_connection.go:34-54 | the connections the vault mirrors are those of the thirteen providers |
| VaultColumns.VaultRowIs | pkg/integration_credential/model/oauth_connection.go:97-131 | the row a connection gets: its name from provider, agent and a short id, no value and no hint, the owner it refers to |
| VaultRuns.RefuseIfConnected | pkg/integration_credential/service/integration_credential_service.go:172-203 | the early-exit scan finds the owning live connection if there is one |
| VaultRuns.Delete | pkg/integration_credential/service/integration_credential_service.go:110-136 | guards in order, fail-closed, then exactly one row removed |
| VaultRuns.GuardMirrorsSync | pkg/integration_credential/service/integration_credential_service.go:192-200 | an unreferenced oauth row can be deleted if and only if the sync would not recreate it |
| VaultColumns.DeletesExactly | pkg/integration_credential/service/integration_credential_service.go:110-203 | a row is deleted if and only if it is there, mirrors no connection that still is, nothing consumes it, and every read and the write work |
| VaultRuns.DeletedStaysDeleted | pkg/integration_credential/service/oauth_sync.go:60-90 | after a delete no run over the same connections brings a row for that owner back |
| VaultRuns.UnguardedDeleteChangesId | pkg/integration_credential/service/integration_credential_service.go:167-171 | without the guard the next complete run recreates the row under another id |
| VaultRuns.VaultIdIsStable | pkg/integration_credential/service/integration_credential_service.go:110-203 | over any run of sync, edit, create, connect, disconnect and delete a connection that stays live keeps its vault id |
| CredentialPatch.DeriveHint | pkg/integration_credential/handler/integration_credential_handler.go:251-256 | the last four characters of the sensitive component, or an error when there is none |
| CredentialPatch.UpdateRow | pkg/integration_credential/repository/integration_credential_repository.go:102-126 | the partial write, the active column and the read-back, each of which may fail |
| CredentialPatch.Update | pkg/integration_credential/handler/integration_credential_handler.go:402-471 | an update that succeeds stores exactly what was requested; one that fails changes nothing, or leaves the request applied with or without its active column |
| CredentialPatch.Create | pkg/integration_credential/handler/integration_credential_handler.go:268-317 | a static row with its value, format and hint, or nothing |
| CredentialPatch.PatchMeetsRequest | pkg/integration_credential/handler/integration_credential_handler.go:439-461 | skip-zero plus the explicit column implement omit-keeps and false-writes |
| CredentialPatch.HintIsNeverSkipped | pkg/integration_credential/model/integration_credential.go:109-118 | a sent secret always moves the hint, because its hint is not empty |
| CredentialPatch.HintsFollowSecrets | pkg/integration_credential/model/integration_credential.go:109-150 | over any run every static row's hint is that of its decrypted sensitive component |
| CredentialPatch.PatchIsEdit | pkg/integration_credential/repository/integration_credential_repository.go:102-126 | a patch is one of the steps under which vault ids are stable |
| VaultColumns.TakenExactly | pkg/integration_credential/handler/integration_credential_handler.go:402-428 | a patch is refused if and only if its kind is oauth or its value holds nothing to keep secret |
| VaultColumns.RequestedIsPatched | pkg/integration_credential/handler/integration_credential_handler.go:402-471 | every column of a patched row: the installation scope only by that word, the composite format only by that word, the hint the last four characters of the secret, and what was not sent as stored |
| VaultColumns.CreatedIsNew | pkg/integration_credential/handler/integration_credential_handler.go:268-317 | every column of a created row |
| VaultColumns.PatchLeaves | pkg/integration_credential/repository/integration_credential_repository.go:102-126 | where the statements of a patch leave the table: nothing when the first fails or the table does not take the row, the row without its active column when the second fails, the whole row otherwise, answered or not |
| ApiKeyPatch.KeyTable.Update | pkg/api_key/repository/api_key_repository.go:97-137 | the three statements and where a failure cuts them off; a failed read-back answers nothing and keeps all of them |
| ApiKeyPatch.StatementsMeetRequest | pkg/api_key/repository/api_key_repository.go:97-137 | without failures exactly what was asked, a blank endpoint clearing it; cut off, each column is as stored or as asked |
| ApiKeyPatch.KeyHintFollowsKey | pkg/api_key/repository/api_key_repository.go:106-108 | the hint never leaves its key behind, not even in a cut-off update |
| VaultColumns.KeyIsPatched | pkg/api_key/handler/api_key_handler.go:269-330 | every column of a patched key: the front end's field wins, a blank endpoint clears, a sent one is trimmed |
| VaultColumns.KeyPatchLeaves | pkg/api_key/repository/api_key_repository.go:97-137 | where the three statements leave a key, by which of them fails |
| ReferenceIndex.Deployed | pkg/integration_credential/repository/reference_repository.go:148-161 | the table and every column the query reads exist |
| ReferenceIndex.Scan | pkg/integration_credential/repository/reference_repository.go:163-183 | the rows whose text is an id, in order |
| ReferenceIndex.ReferencesByCredential | pkg/integration_credential/repository/reference_repository.go:33-49 | the sweep drops undeployed and failing stores |
| ReferenceIndex.ReferencesForCredential | pkg/integration_credential/repository/reference_repository.go:56-72 | fails if and only if some deployed store fails |
| ReferenceIndex.Build | pkg/integration_credential/service/references.go:46-65 | for every credential the labels of its references, each as often as it was read, in sorted order, and none for any other |
| ReferenceIndex.ConsumersOf | pkg/integration_credential/service/references.go:70-83 | the labels of the narrowed answer in sorted order, or its failure |
| ReferenceCounts.PageCounts | pkg/integration_credential/repository/reference_repository.go:33-49 | the page shows a label of a credential as often as a row of a store that exists and reads refers to it under that label |
| ReferenceCounts.AnswerCounts | pkg/integration_credential/repository/reference_repository.go:56-88 | the guard names a label as often as a row of an existing store spells the credential canonically under it |
| ReferenceIndex.GuardWithinIndex | pkg/integration_credential/repository/reference_repository.go:83-88 | with clean reads the guard's labels are among the page's, as often or less, and equal if and only if every stored reference to the credential is canonical text |
| ReferenceIndex.OtherSpellingIsMissed | pkg/integration_credential/repository/reference_repository.go:163-187 | a reference in another spelling makes the guard's answer shorter than the page's |
| ReferenceIndex.IndexDropsFailingStores | pkg/integration_credential/repository/reference_repository.go:30-49 | a failing store takes away its own labels and no others |
| LabelOrder.SortIsTheArrangement | pkg/integration_credential/service/references.go:58-62 | a list is the sorted list of some labels if and only if it is sorted and has them as often |
| LabelOrder.SortedIsUnique | pkg/integration_credential/service/references.go:58-62 | the sorted order of labels does not depend on how they were sorted or read |
| LabelOrder.LeqIsLexical | pkg/integration_credential/service/references.go:58-62 | one label comes before another if and only if it is smaller, or ends, where they first differ |
| FilterCompiler.SplitFilterValues | pkg/agent/repository/agent_filter.go:68-76 | the non-blank trimmed parts |
| FilterClauses.SplitListsValues | pkg/agent/repository/agent_filter.go:68-76 | they are the texts between the commas that are not blank, without the blanks around them, in order |
| TextLaws.TrimmedIsTrim | pkg/agent/repository/agent_filter.go:98-101 | trimming leaves the one text that encloses everything but the blanks at both ends |
| FilterClauses.AcceptedExactly | pkg/agent/repository/agent_filter.go:86-140 | a clause survives if and only if its key is a column of the screen and it asks for presence, or has a value left after trimming and an operator that column compares with: equality for dates and numbers, also containment for texts and tags; a date where the screen checks it, a number for a timeout |
| FilterClauses.KeptAreSurvivors | pkg/custom_tool/repository/custom_tool_filter.go:29-52 | the clauses that reach the query are the accepted ones, in the order of the request |
| FilterClauses.ClausePrints | pkg/custom_mcp_server/repository/custom_mcp_server_filter.go:63-181 | the SQL every accepted clause prints and the arguments it brings |
| FilterClauses.GlueIs | pkg/agent/repository/agent_filter.go:57-62 | a clause is joined by OR if it says or in any mix of cases, by AND otherwise |
| FilterClauses.PrintedExactly | pkg/agent/repository/agent_filter.go:27-55 | the printed condition is the SQL of the accepted clauses in parentheses, joined as they say, with their arguments in that order |
| FilterLexer.LexInvertsSpelling | pkg/agent/repository/agent_filter.go:27-140 | reading a printed condition from its characters gives back the checks it was printed from, for every column name and every check |
| FilterLexer.SpellingMarks | pkg/agent/repository/agent_filter.go:30-50 | the text has one question mark for every check that takes an argument |
| FilterCompiler.Apply | pkg/agent/repository/agent_filter.go:27-55 | the text and arguments are those of the surviving clauses, each in parentheses behind its glue |
| FilterMeaning.ScreensAreShaped | pkg/custom_tool/repository/custom_tool_filter.go:61-146 | on every screen a clause compiles to one check, or two joined by OR, with one argument per placeholder |
| FilterMeaning.ArgumentsReachTheirClauses | pkg/agent/repository/agent_filter.go:30-50 | handing the arguments out from left to right gives every check the one its own clause supplied |
| FilterMeaning.PlaceholdersMatchArguments | pkg/agent/repository/agent_filter.go:30-50 | the text has as many question marks as there are arguments, and the check behind the i-th of them receives the i-th argument |
| FilterMeaning.ParseDisj | pkg/custom_mcp_server/repository/custom_mcp_server_filter.go:31-54 | read with AND above OR (section 4.1.6 of the PostgreSQL documentation), the checks of a printed condition group as the OR of the AND-runs |
| FilterMeaning.ClauseMeans | pkg/custom_mcp_server/repository/custom_mcp_server_filter.go:63-181 | on each of the three screens a clause's fragment fails if and only if it compares with a value that cannot be converted, and is otherwise TRUE on a row, in three truth values, if and only if the clause holds |
| FilterMeaning.ConditionMeans | pkg/agent/repository/agent_filter.go:27-140 | the printed text, read from its characters with its arguments by position, fails if and only if some surviving clause compares with a value that cannot be converted, and is otherwise TRUE on a row if and only if every clause of some OR-separated group holds |
| FilterMeaning.AgentsScreenFails | pkg/agent/repository/agent_filter.go:108-122 | a creation date that is none fails the agents list, and is dropped by the tools list |
| FilterMeaning.CheckedScreensConvert | pkg/custom_mcp_server/repository/custom_mcp_server_filter.go:90-96 | the tool and server lists never fail on a value, as far as the database takes for a date and a number what the language takes for one |
| FilterMeaning.Where | pkg/agent/repository/agent_filter.go:27-55 | the text and arguments a list request gets: the SQL of exactly the accepted clauses, in order; none when there are none, otherwise a condition that fails as stated or selects exactly the rows they ask for |
| FilterMeaning.RejectedClausesVanish | pkg/custom_tool/repository/custom_tool_filter.go:29-52 | compiling a list prints what compiling it without the rejected clauses prints |
| PathTemplate.EscapeIsBraceFree | pkg/custom_tool/service/custom_tool_service.go:196 | a percent-encoded value (section 2.1 of RFC 3986) never contains a brace |
| PathEncoding.EscapeRoundTrip | pkg/custom_tool/service/custom_tool_service.go:196 | percent-decoding and UTF-8 (RFC 3629) read every value back from its encoding |
| PathEncoding.EscapeIsWellEncoded | pkg/custom_tool/service/custom_tool_service.go:196 | an encoded value is letters, digits, ten marks and percent signs with two hexadecimal digits: no raw space, slash, question mark or hash |
| PathTemplate.ReplaceIsSubstitute | pkg/custom_tool/service/custom_tool_service.go:196 | one ReplaceAll is a one-name substitution |
| PathTemplate.SubstitutionsCompose | pkg/custom_tool/service/custom_tool_service.go:195-197 | two substitutions in a row are one |
| PathTemplate.ExpansionIsSimultaneous | pkg/custom_tool/service/custom_tool_service.go:193-197 | without nesting, and for parameter names without braces, any map order gives the one simultaneous substitution |
| PathTemplate.ResolvePath | pkg/custom_tool/service/custom_tool_service.go:193-197 | the loop over the map, in whatever order it happens; what an encoded value is, is `PathEncoding.EscapeRoundTrip` |
| PathTemplateOrder.OrderShowsExactlyOnNesting | pkg/custom_tool/service/custom_tool_service.go:195-197 | for parameter names without braces, the order never matters if and only if the template does not nest |
| PathTemplateOrder.NestingShowsOrder | pkg/custom_tool/service/custom_tool_service.go:195-197 | every nesting template has parameters whose order shows |
| PathTemplatePairs.OrderShowsExactlyOnTwoPairs | pkg/custom_tool/service/custom_tool_service.go:193-197 | for any parameter names, the order never matters if and only if at most one opening brace and closing brace behind it can be paired |
| PathTemplatePairs.OnePairExpands | pkg/custom_tool/service/custom_tool_service.go:193-197 | with one pair, any order replaces its text if that is a parameter's name, and nothing else |
| PathTemplatePairs.BracedNameShows | pkg/custom_tool/service/custom_tool_service.go:193-197 | a template without nesting whose order shows to a parameter name with braces |
| TenantRouting.Initialize | pkg/evoextensions/tenantstamp/plugin.go:131-142 | where the callbacks end up in the three write chains and the read chain |
| TenantRouting.Session.RerouteSchemaless | pkg/evoextensions/tenantstamp/plugin.go:159-168 | skipped without schema or context |
| TenantRouting.Session.RouteScopedTenantWrite | pkg/evoextensions/tenantstamp/plugin.go:260-281 | listed tables go to the bound connection or fail |
| TenantRouting.Session.Stamp | pkg/evoextensions/tenantstamp/plugin.go:175-224 | the loop over rows of any shape; what each row becomes is `TenantArrival.SendsExactly` |
| TenantRouting.StampMap | pkg/evoextensions/tenantstamp/plugin.go:303-326 | sets the key of a map that can take it and has no tenant yet |
| TenantRouting.StampCarriesTenant | pkg/evoextensions/tenantstamp/plugin.go:208-223 | every row that can take a tenant and has none carries the given one; nothing else changes |
| TenantArrival.SendsExactly | pkg/evoextensions/tenantstamp/plugin.go:131-326 | what one statement sends, by the ten tables and the column name: nothing when refused, otherwise itself, once, to its connection; a struct without a tenant and a writable map without one arrive with the request's, every other row as it was made |
| TenantArrival.CreatedRowsArrive | pkg/evoextensions/tenantstamp/plugin.go:283-326 | the rows of a create on a tenant table within a tenant, one by one |
| TenantRouting.Session.BindRead | pkg/evoextensions/tenantscope/plugin.go:68-106 | reads of tenant models go to the bound connection or fail |
| TenantRouting.PerformExactly | pkg/evoextensions/tenantstamp/plugin.go:226-281 | what a statement sends and where, for every operation, table, context and fault; it ends or leaks no transaction |
| TenantRouting.Handle | pkg/evoextensions/tenantstamp/plugin.go:131-224 | the callbacks run in place have that effect |
| TenantRouting.ListedWriteIsBoundOrNothing | pkg/evoextensions/tenantstamp/plugin.go:159-168 | a write on a listed table is on the bound transaction or nowhere if and only if it has a schema and a context, or its own begin fails |
| TenantRouting.SchemalessWriteEscapes | pkg/evoextensions/tenantstamp/plugin.go:160-162 | a write that escapes |
| TenantRouting.TenantReadIsBoundOrNothing | pkg/evoextensions/tenantscope/plugin.go:62-74 | a read is on the bound connection or nowhere if and only if its model declares the tenant column |
| TenantRouting.CreateCarriesTenant | pkg/evoextensions/tenantstamp/plugin.go:195-224 | under a bound well-formed tenant the rows arrive on the bound transaction carrying it, unless preset or unable to; row by row in `TenantArrival.CreatedRowsArrive` |
| TenantRouting.NoTenantNoStamp | pkg/evoextensions/tenantstamp/plugin.go:195-206 | without a bound well-formed tenant the rows are sent as the caller made them |
| TenantRouting.BoundEndsOnce | pkg/evoextensions/tenantstamp/plugin.go:245-259 | over a whole request the bound transaction is ended exactly once, at release, after everything was sent |
| TenantRouting.WritesStayBound | pkg/evoextensions/tenantstamp/plugin.go:240-243 | over a whole request of routable writes all listed ones are on the bound transaction |
| TenantRouting.LateRerouteEndsTheRequest | pkg/evoextensions/tenantstamp/plugin.go:245-259 | a reroute registered after begin, for creates, updates or deletes, ends the bound transaction early and leaks the framework's own |
| QuotaRace.Evaluate | pkg/evoextensions/agentquota/agentquota_enterprise.go:127-139 | admits if and only if count plus at least one stays within the limit |
| QuotaRace.Check | pkg/evoextensions/agentquota/agentquota_enterprise.go:39-66 | enforces only what it can read, and lets pass otherwise |
| QuotaRace.TenantAgentLimit | pkg/evoextensions/agentquota/agentquota_enterprise.go:97-118 | no row, NULL, the empty text, a failed read and anything but a decimal integer of 64 bits mean no limit; otherwise the limit is that integer |
| QuotaRace.PrintedIsRead | pkg/evoextensions/agentquota/agentquota_enterprise.go:111-117 | a limit stored as a decimal number is the limit enforced if and only if it fits 64 bits |
| QuotaRace.ReadExactly | pkg/evoextensions/agentquota/agentquota_enterprise.go:111-117 | a text is read as what its digits count to, behind at most one sign and within 64 bits, and as no limit if anything else is in it |
| QuotaRace.OvershootBounded | pkg/evoextensions/agentquota/agentquota_enterprise.go:34-38 | with k handlers of at most m rows each, under any interleaving and any partial import, the count stays within max(initial, limit + (k-1)m), plus rows admitted by checks that enforced nothing |
| QuotaRace.OvershootReached | pkg/agent/handler/agent_handler.go:428-446 | the bound is reached for every k, m and plan whose limit is at least m |
| QuotaRace.SerialNeverOvershoots | pkg/agent/handler/agent_handler.go:139-145 | one handler at a time never passes max(initial, limit) |
| QuotaRace.EnforcedIsMetered | pkg/evoextensions/agentquota/agentquota_enterprise.go:39-66 | checks that always read the quota leave nothing unmetered |
| RateLimiter.Limiter.Admit | internal/middleware/rate_limit.go:33-44 | lookup or a new full bucket, then one token taken if there is one |
| RateLimiter.Limiter.Sweep | internal/middleware/rate_limit.go:47-62 | drops exactly the full buckets |
| RateLimiter.SweptExactly | internal/middleware/rate_limit.go:47-62 | a sweep drops a client if and only if its bucket has refilled to the burst |
| RateLimiter.AdmittedExactly | internal/middleware/rate_limit.go:33-44 | a request is admitted if and only if one token is there, of the burst for a new client, of what was left and has refilled up to the burst for a known one; it takes that token and touches no other client |
| RateLimiter.EvictionIsInvisible | internal/middleware/rate_limit.go:47-62 | with sweeps at any times the decisions on every trace are those of a map that never drops |
| RateLimiter.AdmittedCredit | internal/middleware/rate_limit.go:76-82 | admission depends on the client's credit alone and spends one token of it, nobody else's |
| RateLimiter.WindowBounded | internal/middleware/rate_limit.go:66-82 | in any window after any history a client is admitted at most burst plus what refills in the window |
| RateLimiter.PerSecondIsValid | internal/middleware/rate_limit.go:22-30 | a rate per second refills additively, rate times the seconds |
| SecretMerge.RedactValues | pkg/evoextensions/secretmerge/secretmerge.go:49-61 | every name, and the value of safe names only |
| SecretMerge.KeepMissing | pkg/evoextensions/secretmerge/secretmerge.go:30-45 | a blank hidden value keeps the stored one, an absent name is gone |
| HiddenValues.RedactsExactly | pkg/evoextensions/secretmerge/secretmerge.go:12-61 | the value of a header is shown if and only if its name in small letters is one of eight |
| HiddenValues.KeepsExactly | pkg/evoextensions/secretmerge/secretmerge.go:12-45 | an empty value of any other header that is stored, and found, stands for the stored one |
| SecretMerge.HeaderRoundTrip | pkg/evoextensions/secretmerge/secretmerge.go:30-61 | saving exactly what was read changes nothing |
| SecretMerge.RedactionRevealsNothing | pkg/evoextensions/secretmerge/secretmerge.go:49-61 | what is sent out depends on names and safe values only |
| SecretMerge.SaveOfReadKeeps | pkg/custom_tool/handler/custom_tool_handler.go:272-279 | a save of what was read keeps everything if and only if the stored row was found or nothing hidden was set |
| SecretMerge.UpdateHeaders | pkg/custom_mcp_server/handler/custom_mcp_server_handler.go:264-275 | merges when the stored row was found, replaces otherwise |
| SecretMerge.LastSaveNamesHeaders | pkg/evoextensions/secretmerge/secretmerge.go:42-44 | the headers stored are those the last save named |
| SecretMerge.EchoKeepsHeader | pkg/custom_mcp_server/handler/custom_mcp_server_handler.go:264-269 | a hidden header survives any number of saves that only echo it |
| SecretMerge.LastExplicitHeaderWins | pkg/evoextensions/secretmerge/secretmerge.go:30-45 | over any history a hidden header holds its last explicit value |
| SecretMerge.FreshHeaderStaysBlank | pkg/evoextensions/secretmerge/secretmerge.go:32-45 | a header deleted and added again without a value is blank |
| SecretMerge.MergePreservedSecrets | pkg/agent_integration/model/agent_integration.go:81-114 | absent or blank keeps the stored secret, anything else is the request's |
| SecretMerge.SanitizeConfig | pkg/agent_integration/model/agent_integration.go:129-155 | removes the sensitive names and the values that look like keys |
| HiddenValues.SanitizesExactly | pkg/agent_integration/model/agent_integration.go:129-155 | a read leaves out the twelve secret fields and every text beginning like a key |
| HiddenValues.UpsertsExactly | pkg/agent_integration/service/agent_integration_service.go:117-136 | a save keeps a stored secret field that is left out or blank, if the stored config is found, and otherwise stores what it sends |
| SecretMerge.ConfigRoundTrip | pkg/agent_integration/model/agent_integration.go:81-155 | reading and saving loses exactly the ordinary fields that look like keys |
| SecretMerge.ConfigRoundTripIsIdentity | pkg/agent_integration/model/agent_integration.go:81-155 | nothing is lost if and only if there are none, and a second round trip loses nothing more |
| SecretMerge.SanitizingRevealsNothing | pkg/agent_integration/model/agent_integration.go:126-155 | what is sent out does not depend on the secrets |
| SecretMerge.LastExplicitSecretWins | pkg/agent_integration/service/agent_integration_service.go:117-136 | over any history a secret field holds the last value said out loud, and cannot be deleted by omission |

## Left out

- HTTP binding, routing, permissions, response shaping, pagination, telemetry and configuration: no deep property.
- Encryption, JWT, UUID text, DNS, dialling and the SSRF gate: parameters or absent; decrypting returns what was encrypted.
- GORM and PostgreSQL themselves: separate `Where` calls are one AND-ed unit each, partial updates skip zero fields, `ON CONFLICT` follows the natural key, and only the pool can begin a transaction.
- PathTemplate.ResolvePath: stops before the query string is added, which is escaped by the library.
- FilterCompiler.Apply: does not model the search clause, which is a separate AND-ed unit, nor `parseAgentFilters`.
- PathTemplate.ExpansionIsSimultaneous: parameter names without braces; where a name holds braces, one placeholder can contain another and there is no simultaneous reading. `PathTemplatePairs.OrderShowsExactlyOnTwoPairs` covers all names.
- UpdatesInARow.TwoUpdatesAreOne: compares runs in which all three updates are answered; whether the single one goes through when the two did is proved while the type stays (`ServiceMerge.SameKindUpdatesCompose`).
- FilterMeaning.ConditionMeans: the text is read by a lexer that knows the SQL phrases around a column as whole units; the grammar inside such a phrase (`EXISTS (SELECT ...)`) is not parsed further. A text no driver can send (one with a NUL) is not modelled.
- TenantRouting.PerformExactly: statements start on the pool; a caller's own surrounding transaction, hooks that issue further statements and the commit/rollback distinction are not modelled.
- RateLimiter.Limiter.Admit: lookup and taking a token are one step; in the service the second happens outside the lock. Time and tokens are reals.
- QuotaRace.OvershootBounded: one tenant; the bound takes the largest limit any check read.
- ReferenceIndex.GuardWithinIndex: one state of the stores; a consumer that appears between the check and the delete is not modelled, as the source accepts.
- VaultSync.Run: the live connections have distinct ids, as rows of one table do; a run whose two reads fail does nothing and is not modelled.
- VaultRuns.VaultIdIsStable: the guards of a delete and its removal are one step, and so is a sync.
- AgentService.Service.List: calls do not interleave with each other; page arithmetic is left out, the page is a parameter.
- ToolCache.ConvertToHTTPTool: needs a non-nil error map, as the source does.
- AgentService.Service.Create: folder and key checks are one parameter; the bot's messaging settings are not modelled.
- The external-agent processor, which nothing constructs, `EnsureAPIKey`, `ConvertUUIDToStr`, sharing keys, `Decorate`, `DeriveConnectionStatus` and the migration-state report.
- `applyFilters` of the credential list, which only narrows by equality.
