/** Deleting a vault row, the guard that keeps it in step with the sync, and
    what stays true of a connection's row over any sequence of steps. */
module VaultRuns {
  import opened Wrappers
  import opened Vault
  import opened VaultRows
  import opened VaultSync

  datatype DeleteReply = Removed | NotFound | ReadFailed | Conflict(consumers: seq<string>) | WriteFailed

  /** The first live allowlisted connection that owns the row, if any. */
  function OwningConnection(connections: seq<Connection>, ref: string): Option<Connection> {
    if connections == [] then None
    else if connections[0].integrationId == ref && IsConnectionProvider(connections[0].provider)
      then Some(connections[0])
    else OwningConnection(connections[1..], ref)
  }

  /** refuseIfConnected: only an oauth row of the known owner store is guarded. */
  function Guarded(row: Credential): Option<string> {
    if row.kind.OAuth? && row.owner.Some? && row.owner.value.store == AGENT_INTEGRATION then Some(row.owner.value.ref)
    else None
  }

  /** What Delete answers: `connections` and `consumers` are None when their
      read fails. */
  function DeleteOutcome(rows: map<nat, Credential>, id: nat, connections: Option<seq<Connection>>,
                         consumers: Option<seq<string>>, fault: bool): DeleteReply {
    if id !in rows then NotFound
    else
      var ref := Guarded(rows[id]);
      if ref.Some? && connections.None? then ReadFailed
      else if ref.Some? && OwningConnection(connections.value, ref.value).Some? then
        Conflict(["Integração " + OwningConnection(connections.value, ref.value).value.provider])
      else if consumers.None? then ReadFailed
      else if consumers.value != [] then Conflict(consumers.value)
      else if fault then WriteFailed
      else Removed
  }

  method RefuseIfConnected(row: Credential, connections: Option<seq<Connection>>) returns (refusal: Option<DeleteReply>)
    ensures refusal == (
      var ref := Guarded(row);
      if ref.None? then None
      else if connections.None? then Some(ReadFailed)
      else
        var owner := OwningConnection(connections.value, ref.value);
        if owner.Some? then Some(Conflict(["Integração " + owner.value.provider])) else None)
  {
    if !row.kind.OAuth? || row.owner.None? || row.owner.value.store != AGENT_INTEGRATION {
      return None;
    }
    if connections.None? {
      return Some(ReadFailed);
    }
    var ref := row.owner.value.ref;
    for i := 0 to |connections.value|
      invariant OwningConnection(connections.value, ref) == OwningConnection(connections.value[i..], ref)
    {
      var connection := connections.value[i];
      if connection.integrationId != ref || !IsConnectionProvider(connection.provider) {
        continue;
      }
      return Some(Conflict(["Integração " + connection.provider]));
    }
    return None;
  }

  lemma RemovalKeepsLegal(rows: map<nat, Credential>, id: nat)
    requires Legal(rows)
    ensures Legal(rows - {id})
  {
    var after := rows - {id};
    forall i, j | SharesName(after, i, j) ensures i == j {
      assert SharesName(rows, i, j);
    }
    forall i, j | SharesOwner(after, i, j) ensures i == j {
      assert SharesOwner(rows, i, j);
    }
  }

  method Delete(table: VaultTable, id: nat, connections: Option<seq<Connection>>, consumers: Option<seq<string>>,
                fault: bool)
    returns (reply: DeleteReply)
    requires table.Valid()
    modifies table
    ensures table.Valid()
    ensures reply == DeleteOutcome(old(table.rows), id, connections, consumers, fault)
    ensures table.rows == if reply.Removed? then old(table.rows) - {id} else old(table.rows)
  {
    if id !in table.rows {
      return NotFound;
    }
    var refusal := RefuseIfConnected(table.rows[id], connections);
    if refusal.Some? {
      return refusal.value;
    }
    if consumers.None? {
      return ReadFailed;
    }
    if consumers.value != [] {
      return Conflict(consumers.value);
    }
    if fault {
      return WriteFailed;
    }
    RemovalKeepsLegal(table.rows, id);
    table.rows := table.rows - {id};
    return Removed;
  }

  // ----- The guard and the sync agree -----

  lemma {:induction false} OwningIsLive(connections: seq<Connection>, ref: string)
    ensures OwningConnection(connections, ref).Some? <==> ref in LiveRefs(connections)
  {
    LiveRefsAre(connections, ref);
    if connections != [] {
      OwningIsLive(connections[1..], ref);
      LiveRefsAre(connections[1..], ref);
      if i :|
        && 0 <= i < |connections| && IsConnectionProvider(connections[i].provider)
        && connections[i].integrationId == ref
      {
        if i > 0 {
          assert connections[1..][i - 1] == connections[i];
        }
      }
      if ref in LiveRefs(connections[1..]) {
        var k :| 0 <= k < |connections| - 1 && IsConnectionProvider(connections[1..][k].provider)
          && connections[1..][k].integrationId == ref;
        assert connections[k + 1] == connections[1..][k];
      }
    }
  }

  /** The connection guard refuses an oauth row exactly when a sync over the same
      connections wants a row for its owner. */
  lemma GuardMirrorsSync(rows: map<nat, Credential>, id: nat, ref: string, connections: seq<Connection>,
                         consumers: seq<string>)
    requires Legal(rows) && RowFor(rows, ref, id)
    ensures DeleteOutcome(rows, id, Some(connections), Some([]), false).Removed? <==> ref !in LiveRefs(connections)
    ensures DeleteOutcome(rows, id, Some(connections), Some(consumers), false).Removed? ==>
      ref !in LiveRefs(connections)
  {
    OwningIsLive(connections, ref);
  }

  /** What the guard removes stays removed: a following run over the same
      connections, complete or cut off, has no row for that owner. */
  lemma DeletedStaysDeleted(rows: map<nat, Credential>, after: map<nat, Credential>, id: nat, ref: string,
                            connections: seq<Connection>, consumers: seq<string>)
    requires Legal(rows) && RowFor(rows, ref, id)
    requires DeleteOutcome(rows, id, Some(connections), Some(consumers), false).Removed?
    requires Evolved(rows - {id}, after, LiveRefs(connections))
    ensures forall other :: !RowFor(after, ref, other)
  {
    GuardMirrorsSync(rows, id, ref, connections, consumers);
    forall other ensures !RowFor(after, ref, other) {
      if RowFor(after, ref, other) && other in rows - {id} {
        assert RowKept(rows - {id}, after, other);
        assert SharesOwner(rows, other, id);
      }
    }
  }

  /** Without the guard, a run that completes gives the connection a row under a
      new id, orphaning whatever named the old one. */
  lemma UnguardedDeleteChangesId(rows: map<nat, Credential>, after: map<nat, Credential>, nextId: nat, id: nat,
                                 ref: string, connections: seq<Connection>)
    requires Legal(rows) && FreshFrom(rows, nextId) && RowFor(rows, ref, id) && ref in LiveRefs(connections)
    requires Legal(after) && Evolved(rows - {id}, after, LiveRefs(connections)) && Appended(rows - {id}, after, nextId)
    requires Mismatched(after, LiveRefs(connections)) == {}
    ensures exists other :: RowFor(after, ref, other) && other != id
  {
    NoMismatch(after, connections);
    var other :| RowFor(after, ref, other) && after[other].active;
    if other in rows - {id} {
      assert RowKept(rows - {id}, after, other);
      assert SharesOwner(rows, other, id);
    }
  }

  // ----- Runs -----

  datatype VaultState = VaultState(rows: map<nat, Credential>, connections: seq<Connection>)

  /** A sync, complete or cut off. */
  ghost predicate SyncStep(a: VaultState, b: VaultState) {
    b.connections == a.connections && Evolved(a.rows, b.rows, LiveRefs(a.connections))
  }

  /** A user renames a row, moves its scope or switches it on or off. */
  ghost predicate EditStep(a: VaultState, b: VaultState) {
    && b.connections == a.connections && b.rows.Keys == a.rows.Keys
    && forall id :: id in a.rows ==> b.rows[id].owner == a.rows[id].owner && b.rows[id].kind == a.rows[id].kind
  }

  /** A user adds a static credential. */
  ghost predicate AddStep(a: VaultState, b: VaultState) {
    && b.connections == a.connections
    && (forall id :: id in a.rows ==> id in b.rows && b.rows[id] == a.rows[id])
    && (forall id :: id in b.rows && id !in a.rows ==> b.rows[id].owner.None?)
  }

  /** Agents connect and disconnect. */
  ghost predicate ConnectStep(a: VaultState, b: VaultState) {
    b.rows == a.rows
  }

  /** A guarded delete over the current connections. */
  ghost predicate DeleteStep(a: VaultState, b: VaultState, id: nat) {
    && b.connections == a.connections && b.rows == a.rows - {id}
    && exists consumers :: DeleteOutcome(a.rows, id, Some(a.connections), Some(consumers), false).Removed?
  }

  ghost predicate VaultStep(a: VaultState, b: VaultState) {
    || SyncStep(a, b) || EditStep(a, b) || AddStep(a, b) || ConnectStep(a, b)
    || exists id :: DeleteStep(a, b, id)
  }

  ghost predicate VaultTrace(states: seq<VaultState>) {
    && (forall k :: 0 <= k < |states| ==> Legal(states[k].rows))
    && (forall k :: 0 <= k < |states| - 1 ==> VaultStep(states[k], states[k + 1]))
  }

  lemma StepKeepsLiveRow(a: VaultState, b: VaultState, ref: string, id: nat)
    requires Legal(a.rows) && VaultStep(a, b)
    requires RowFor(a.rows, ref, id) && ref in LiveRefs(a.connections)
    ensures RowFor(b.rows, ref, id)
  {
    if SyncStep(a, b) {
      assert RowKept(a.rows, b.rows, id);
    } else if gone :| DeleteStep(a, b, gone) {
      if gone == id {
        var consumers :| DeleteOutcome(a.rows, id, Some(a.connections), Some(consumers), false).Removed?;
        GuardMirrorsSync(a.rows, id, ref, a.connections, consumers);
      }
    }
  }

  /** Over any run of syncs, edits, additions, connects, disconnects and guarded
      deletes, a connection keeps its vault id for as long as it stays live. */
  lemma {:induction false} VaultIdIsStable(states: seq<VaultState>, ref: string, id: nat)
    requires VaultTrace(states) && states != []
    requires forall k :: 0 <= k < |states| ==> ref in LiveRefs(states[k].connections)
    requires RowFor(states[0].rows, ref, id)
    ensures forall k :: 0 <= k < |states| ==> RowFor(states[k].rows, ref, id)
  {
    var k := 0;
    while k < |states| - 1
      invariant 0 <= k < |states|
      invariant forall j :: 0 <= j <= k ==> RowFor(states[j].rows, ref, id)
    {
      StepKeepsLiveRow(states[k], states[k + 1], ref, id);
      k := k + 1;
    }
  }
}
