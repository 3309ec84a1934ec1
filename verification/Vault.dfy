/** The credential vault table: its rows, the constraints the database enforces
    and the connections its oauth rows mirror. */
module Vault {
  import opened Wrappers

  datatype Kind = Static | OAuth
  datatype Scope = Installation | Account
  datatype Format = Scalar | Composite

  /** Where the secret of an oauth row actually lives. */
  datatype Owner = Owner(store: string, ref: string)

  /** An encrypted secret: decrypting gives back exactly what was encrypted. */
  datatype Cipher = Cipher(plain: string)

  datatype Credential = Credential(
    name: string, provider: string, kind: Kind, value: Option<Cipher>, format: Format, hint: string,
    scope: Scope, owner: Option<Owner>, active: bool)

  const AGENT_INTEGRATION: string := "agent_integration"

  /** The kind/content CHECK: a static row owns a value, an oauth row an owner. */
  predicate KindContent(row: Credential) {
    match row.kind
    case Static => row.value.Some? && row.owner.None?
    case OAuth => row.value.None? && row.owner.Some?
  }

  /** Another row of the same scope already has the name. */
  predicate NameClash(rows: map<nat, Credential>, id: nat, row: Credential) {
    exists other :: other in rows && other != id && rows[other].scope == row.scope && rows[other].name == row.name
  }

  predicate SharesName(rows: map<nat, Credential>, i: nat, j: nat) {
    i in rows && j in rows && rows[i].scope == rows[j].scope && rows[i].name == rows[j].name
  }

  ghost predicate UniqueNames(rows: map<nat, Credential>) {
    forall i, j :: SharesName(rows, i, j) ==> i == j
  }

  predicate SharesOwner(rows: map<nat, Credential>, i: nat, j: nat) {
    i in rows && j in rows && rows[i].owner.Some? && rows[i].owner == rows[j].owner
  }

  ghost predicate UniqueOwners(rows: map<nat, Credential>) {
    forall i, j :: SharesOwner(rows, i, j) ==> i == j
  }

  /** Everything the table's constraints guarantee, and that only this service's
      sync creates oauth rows. */
  ghost predicate Legal(rows: map<nat, Credential>) {
    && (forall id :: id in rows ==> KindContent(rows[id]))
    && UniqueNames(rows)
    && UniqueOwners(rows)
    && (forall id :: id in rows && rows[id].owner.Some? ==> rows[id].owner.value.store == AGENT_INTEGRATION)
  }

  predicate FreshFrom(rows: map<nat, Credential>, nextId: nat) {
    forall id :: id in rows ==> id < nextId
  }

  // ----- Connections -----

  datatype Connection = Connection(integrationId: string, agentId: string, agentName: string, provider: string)

  const CONNECTION_PROVIDERS: set<string> := {
    "github", "notion", "stripe", "linear", "monday", "atlassian", "asana", "hubspot",
    "paypal", "canva", "supabase", "google_calendar", "google_sheets"}

  predicate IsConnectionProvider(provider: string) {
    provider in CONNECTION_PROVIDERS
  }

  /** Connection ids are the primary key of the store they are read from. */
  predicate DistinctIds(connections: seq<Connection>) {
    forall i, j :: 0 <= i < j < |connections| ==> connections[i].integrationId != connections[j].integrationId
  }

  function ShortId(id: string): string {
    if |id| <= 8 then id else id[..8]
  }

  function VaultRowName(c: Connection): string {
    c.provider + " - " + (if c.agentName == "" then c.agentId else c.agentName) + " (" + ShortId(c.integrationId) + ")"
  }

  function OwnerOf(ref: string): Owner {
    Owner(AGENT_INTEGRATION, ref)
  }

  /** The reference row of a connection: no value, no hint, only the owner. */
  function ToVaultRow(c: Connection): Credential {
    Credential(VaultRowName(c), c.provider, OAuth, None, Scalar, "", Account, Some(OwnerOf(c.integrationId)), true)
  }

  /** The refs that should have an active row. */
  function LiveRefs(connections: seq<Connection>): set<string> {
    if connections == [] then {}
    else
      var last := connections[|connections| - 1];
      LiveRefs(connections[..|connections| - 1]) + if IsConnectionProvider(last.provider) then {last.integrationId}
        else {}
  }

  lemma {:induction false} LiveRefsAre(connections: seq<Connection>, ref: string)
    ensures ref in LiveRefs(connections) <==>
      exists i :: 0 <= i < |connections| && IsConnectionProvider(connections[i].provider)
        && connections[i].integrationId == ref
  {
    if connections != [] {
      var n := |connections| - 1;
      LiveRefsAre(connections[..n], ref);
      if ref in LiveRefs(connections[..n]) {
        var i :| 0 <= i < n && IsConnectionProvider(connections[..n][i].provider)
          && connections[..n][i].integrationId == ref;
        assert connections[i] == connections[..n][i];
      }
      if i :|
        && 0 <= i < |connections| && IsConnectionProvider(connections[i].provider)
        && connections[i].integrationId == ref
      {
        if i < n {
          assert connections[..n][i] == connections[i];
        }
      }
    }
  }

  /** The refs that do. */
  function ActiveRefs(rows: map<nat, Credential>): set<string> {
    set id | id in rows && rows[id].owner.Some? && rows[id].active :: rows[id].owner.value.ref
  }

  /** The refs the sync still has to write. */
  function Mismatched(rows: map<nat, Credential>, live: set<string>): set<string> {
    (live - ActiveRefs(rows)) + (ActiveRefs(rows) - live)
  }

  /** Row `id` is the vault's row for connection `ref`. */
  predicate RowFor(rows: map<nat, Credential>, ref: string, id: nat) {
    id in rows && rows[id].owner == Some(OwnerOf(ref))
  }
}
