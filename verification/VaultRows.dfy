/** The vault's oauth rows: the two writes the sync may make, and what each of
    them leaves alone. */
module VaultRows {
  import opened Wrappers
  import opened Vault

  /** A row the sync may have renamed or switched on or off, but whose identity
      is the same; a static row is untouched. */
  predicate RowKept(before: map<nat, Credential>, after: map<nat, Credential>, id: nat) {
    && id in before && id in after
    && after[id] == before[id].(name := after[id].name, provider := after[id].provider, active := after[id].active)
    && (before[id].owner.None? ==> after[id] == before[id])
  }

  predicate Mirrors(row: Credential, live: set<string>) {
    row.owner.Some? && row.owner.value.ref in live
  }

  /** What any number of sync writes leaves alone: no row goes away or changes
      its identity, and a row that appears belongs to a live connection. */
  ghost predicate Evolved(before: map<nat, Credential>, after: map<nat, Credential>, live: set<string>) {
    && (forall id :: id in before ==> RowKept(before, after, id))
    && (forall id :: id in after ==> id in before || Mirrors(after[id], live))
  }

  /** Ids handed out since the counter stood at `first`. */
  ghost predicate Appended(before: map<nat, Credential>, after: map<nat, Credential>, first: nat) {
    forall id :: id in after && id !in before ==> first <= id
  }

  ghost predicate OnlyTouches(before: map<nat, Credential>, after: map<nat, Credential>, ref: string) {
    forall id :: id in before && before[id].owner != Some(OwnerOf(ref)) ==> id in after && after[id] == before[id]
  }

  lemma EvolvedTransitive(a: map<nat, Credential>, b: map<nat, Credential>, c: map<nat, Credential>, live: set<string>)
    requires Evolved(a, b, live) && Evolved(b, c, live)
    ensures Evolved(a, c, live)
  {
  }

  /** The scope a connection's row has, or gets when it is inserted. */
  ghost function ScopeOf(rows: map<nat, Credential>, ref: string): Scope {
    if exists id :: RowFor(rows, ref, id) then
      var id :| RowFor(rows, ref, id);
      rows[id].scope
    else Account
  }

  lemma ScopeOfRow(rows: map<nat, Credential>, ref: string, id: nat)
    requires Legal(rows) && RowFor(rows, ref, id)
    ensures ScopeOf(rows, ref) == rows[id].scope
  {
    forall other | RowFor(rows, ref, other) ensures other == id {
      assert SharesOwner(rows, other, id);
    }
  }

  /** The connection's row name is taken by another row of the scope it would
      be written in. */
  ghost predicate Clashes(rows: map<nat, Credential>, c: Connection) {
    exists other ::
      && other in rows && rows[other].name == VaultRowName(c) && rows[other].scope == ScopeOf(rows, c.integrationId)
      && rows[other].owner != Some(OwnerOf(c.integrationId))
  }

  lemma OwnerIsUnique(rows: map<nat, Credential>, id: nat)
    requires Legal(rows)
    ensures id in rows && rows[id].owner.Some? ==>
      forall other :: other in rows && rows[other].owner == rows[id].owner ==> other == id
  {
    if id in rows && rows[id].owner.Some? {
      forall other | other in rows && rows[other].owner == rows[id].owner ensures other == id {
        assert SharesOwner(rows, other, id);
      }
    }
  }

  /** What the upsert checks is that clash. */
  lemma ClashIsNameClash(rows: map<nat, Credential>, id: nat, written: Credential, c: Connection)
    requires Legal(rows) && written.name == VaultRowName(c)
    requires if id in rows then RowFor(rows, c.integrationId, id) && written.scope == rows[id].scope
             else written.scope == Account && forall other :: !RowFor(rows, c.integrationId, other)
    ensures NameClash(rows, id, written) <==> Clashes(rows, c)
  {
    if id in rows {
      ScopeOfRow(rows, c.integrationId, id);
      OwnerIsUnique(rows, id);
    }
    assert written.scope == ScopeOf(rows, c.integrationId);
    if NameClash(rows, id, written) {
      var other :| other in rows && other != id && rows[other].scope == written.scope
        && rows[other].name == written.name;
      assert !RowFor(rows, c.integrationId, other);
    }
  }

  lemma ActiveRefsHas(rows: map<nat, Credential>, id: nat)
    requires id in rows && rows[id].owner.Some? && rows[id].active
    ensures rows[id].owner.value.ref in ActiveRefs(rows)
  {
  }

  lemma UpsertFacts(rows: map<nat, Credential>, id: nat, written: Credential, ref: string)
    requires Legal(rows) && written.owner == Some(OwnerOf(ref)) && written.active
    requires KindContent(written) && !NameClash(rows, id, written)
    requires forall other :: other in rows && rows[other].owner == Some(OwnerOf(ref)) ==> other == id
    requires id in rows ==> rows[id].owner == Some(OwnerOf(ref))
    ensures Legal(rows[id := written])
    ensures ActiveRefs(rows[id := written]) == ActiveRefs(rows) + {ref}
  {
    var after := rows[id := written];
    forall i, j | SharesName(after, i, j) ensures i == j {
      assert SharesName(rows, i, j) || i == id || j == id;
    }
    forall i, j | SharesOwner(after, i, j) ensures i == j {
      assert SharesOwner(rows, i, j) || i == id || j == id;
    }
    ActiveRefsHas(after, id);
    forall r ensures r in ActiveRefs(after) <==> r in ActiveRefs(rows) + {ref} {
      if r in ActiveRefs(rows) {
        var other :| other in rows && rows[other].owner.Some? && rows[other].active && rows[other].owner.value.ref == r;
        assert other in after;
        ActiveRefsHas(after, other);
      }
    }
  }

  lemma DeactivateFacts(rows: map<nat, Credential>, ref: string, id: Option<nat>)
    requires Legal(rows)
    requires id.Some? ==> id.value in rows && rows[id.value].owner == Some(OwnerOf(ref))
    requires id.None? ==> forall other :: other in rows ==> rows[other].owner != Some(OwnerOf(ref))
    ensures var after := if id.Some? then rows[id.value := rows[id.value].(active := false)] else rows;
      Legal(after) && ActiveRefs(after) == ActiveRefs(rows) - {ref}
  {
    var after := if id.Some? then rows[id.value := rows[id.value].(active := false)] else rows;
    if id.Some? {
      OwnerIsUnique(rows, id.value);
    }
    forall i, j | SharesName(after, i, j) ensures i == j {
      assert SharesName(rows, i, j);
    }
    forall i, j | SharesOwner(after, i, j) ensures i == j {
      assert SharesOwner(rows, i, j);
    }
    forall r ensures r in ActiveRefs(after) <==> r in ActiveRefs(rows) - {ref} {
      if r in ActiveRefs(rows) && r != ref {
        var other :| other in rows && rows[other].owner.Some? && rows[other].active && rows[other].owner.value.ref == r;
        ActiveRefsHas(after, other);
      }
      if r in ActiveRefs(after) {
        var other :| other in after && after[other].owner.Some? && after[other].active
          && after[other].owner.value.ref == r;
        ActiveRefsHas(rows, other);
      }
    }
  }

  class VaultTable {
    var rows: map<nat, Credential>
    var nextId: nat

    ghost predicate Valid()
      reads this
    {
      Legal(rows) && FreshFrom(rows, nextId)
    }

    constructor ()
      ensures Valid() && rows == map[]
    {
      rows, nextId := map[], 0;
    }

    /** The row a natural key points at, if any. */
    method FindOwner(owner: Owner) returns (id: Option<nat>)
      ensures id.Some? ==> id.value in rows && rows[id.value].owner == Some(owner)
      ensures id.None? ==> forall other :: other in rows ==> rows[other].owner != Some(owner)
    {
      var todo := rows.Keys;
      while todo != {}
        invariant todo <= rows.Keys
        invariant forall other :: other in rows && other !in todo ==> rows[other].owner != Some(owner)
        decreases |todo|
      {
        var other :| other in todo;
        if rows[other].owner == Some(owner) {
          return Some(other);
        }
        todo := todo - {other};
      }
      return None;
    }

    /** UpsertOAuthRow: by the natural key, updating name, provider and state;
        refused by an outside fault or a (scope, name) clash. */
    method UpsertOAuthRow(c: Connection, fault: bool) returns (ok: bool)
      requires Valid()
      modifies this
      ensures Valid()
      ensures !ok ==> rows == old(rows) && nextId == old(nextId)
      ensures ok <==> !fault && !Clashes(old(rows), c)
      ensures ok ==> Evolved(old(rows), rows, {c.integrationId})
      ensures Appended(old(rows), rows, old(nextId)) && nextId >= old(nextId)
      ensures ok ==> ActiveRefs(rows) == ActiveRefs(old(rows)) + {c.integrationId}
      ensures ok ==> OnlyTouches(old(rows), rows, c.integrationId)
      ensures ok ==> forall id :: id in rows && rows[id].owner == Some(OwnerOf(c.integrationId)) ==>
        rows[id].name == VaultRowName(c) && rows[id].provider == c.provider && rows[id].active
      ensures forall id :: id in rows && id !in old(rows) ==> rows[id] == ToVaultRow(c) && rows[id].scope == Account
    {
      if fault {
        return false;
      }
      var row := ToVaultRow(c);
      var existing := FindOwner(OwnerOf(c.integrationId));
      var id := if existing.Some? then existing.value else nextId;
      OwnerIsUnique(rows, id);
      var written := if existing.Some? then rows[id].(name := row.name, provider := row.provider, active := true)
        else row;
      ClashIsNameClash(rows, id, written, c);
      if NameClash(rows, id, written) {
        return false;
      }
      UpsertFacts(rows, id, written, c.integrationId);
      rows := rows[id := written];
      nextId := if existing.Some? then nextId else nextId + 1;
      return true;
    }

    /** DeactivateOAuthRow: by the natural key; nothing to do is no error. */
    method DeactivateOAuthRow(ref: string, fault: bool) returns (ok: bool)
      requires Valid()
      modifies this
      ensures Valid()
      ensures ok <==> !fault
      ensures nextId == old(nextId) && rows.Keys == old(rows.Keys)
      ensures !ok ==> rows == old(rows)
      ensures ok ==> Evolved(old(rows), rows, {}) && ActiveRefs(rows) == ActiveRefs(old(rows)) - {ref}
      ensures ok ==> OnlyTouches(old(rows), rows, ref)
      ensures ok ==> forall id :: id in old(rows) ==> rows[id] == old(rows)[id].(active := rows[id].active)
    {
      if fault {
        return false;
      }
      var id := FindOwner(OwnerOf(ref));
      DeactivateFacts(rows, ref, id);
      if id.Some? {
        OwnerIsUnique(rows, id.value);
        rows := rows[id.value := rows[id.value].(active := false)];
      }
      return true;
    }
  }
}
