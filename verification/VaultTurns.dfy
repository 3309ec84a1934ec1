/** Which live connection stops the first loop of a sync, read off the rows before
    the run. */
module VaultTurns {
  import opened Wrappers
  import opened Vault
  import opened VaultRows

  /** The first loop writes the connection, unless something stops it. */
  ghost predicate HasTurn(rows0: map<nat, Credential>, c: Connection) {
    IsConnectionProvider(c.provider) && c.integrationId !in ActiveRefs(rows0)
  }

  /** The loop has written the ref's row before turn `i`. */
  ghost predicate WrittenBefore(rows0: map<nat, Credential>, connections: seq<Connection>, i: nat, ref: string)
    requires i <= |connections|
  {
    exists k :: 0 <= k < i && HasTurn(rows0, connections[k]) && connections[k].integrationId == ref
  }

  ghost predicate RowWrittenBefore(rows0: map<nat, Credential>, connections: seq<Connection>, i: nat, row: Credential)
    requires i <= |connections|
  {
    row.owner.Some? && WrittenBefore(rows0, connections, i, row.owner.value.ref)
  }

  /** A row the loop has not rewritten by turn `i` has the connection's name, in the
      scope the connection is written in. */
  ghost predicate TakesName(rows0: map<nat, Credential>, connections: seq<Connection>, i: nat, other: nat)
    requires i < |connections|
  {
    && other in rows0 && rows0[other].name == VaultRowName(connections[i])
    && rows0[other].scope == ScopeOf(rows0, connections[i].integrationId)
    && rows0[other].owner != Some(OwnerOf(connections[i].integrationId))
    && !RowWrittenBefore(rows0, connections, i, rows0[other])
  }

  /** An earlier connection is written under the same name in the same scope. */
  ghost predicate NamedAlike(rows0: map<nat, Credential>, connections: seq<Connection>, k: int, i: nat)
    requires i < |connections|
  {
    && 0 <= k < i && HasTurn(rows0, connections[k]) && VaultRowName(connections[k]) == VaultRowName(connections[i])
    && ScopeOf(rows0, connections[k].integrationId) == ScopeOf(rows0, connections[i].integrationId)
  }

  /** At its turn the connection's name is taken, as the rows before the run show. */
  ghost predicate ClashesAtTurn(rows0: map<nat, Credential>, connections: seq<Connection>, i: nat)
    requires i < |connections|
  {
    || (exists other :: TakesName(rows0, connections, i, other))
    || (exists k :: NamedAlike(rows0, connections, k, i))
  }

  /** The run cannot get past turn `i`. */
  ghost predicate Blocks(rows0: map<nat, Credential>, connections: seq<Connection>, i: nat)
    requires i < |connections|
  {
    HasTurn(rows0, connections[i]) && ClashesAtTurn(rows0, connections, i)
  }

  ghost predicate NamedFor(rows0: map<nat, Credential>, rows: map<nat, Credential>, c: Connection) {
    exists id ::
      && RowFor(rows, c.integrationId, id) && rows[id].name == VaultRowName(c)
      && rows[id].scope == ScopeOf(rows0, c.integrationId)
  }

  /** The rows at turn `i`: those written before carry their connection's name in the
      scope they had, every other is as before the run. */
  ghost predicate NamedAt(rows0: map<nat, Credential>, rows: map<nat, Credential>, connections: seq<Connection>, i: nat)
    requires i <= |connections|
  {
    && (forall id :: id in rows && !RowWrittenBefore(rows0, connections, i, rows[id]) ==>
      id in rows0 && rows[id] == rows0[id])
    && (forall id :: id in rows0 ==>
      id in rows && rows[id].owner == rows0[id].owner && rows[id].scope == rows0[id].scope)
    && (forall k :: 0 <= k < i && HasTurn(rows0, connections[k]) ==> NamedFor(rows0, rows, connections[k]))
  }

  lemma RowWasThere(rows0: map<nat, Credential>, rows: map<nat, Credential>, connections: seq<Connection>, i: nat,
                    ref: string, id: nat)
    requires i <= |connections| && NamedAt(rows0, rows, connections, i)
    requires RowFor(rows, ref, id) && !WrittenBefore(rows0, connections, i, ref)
    ensures RowFor(rows0, ref, id)
  {
    assert !RowWrittenBefore(rows0, connections, i, rows[id]);
  }

  /** The scope a later turn writes in is the one it had before the run. */
  lemma ScopeStays(rows0: map<nat, Credential>, rows: map<nat, Credential>, connections: seq<Connection>, turn: nat,
                   i: nat)
    requires Legal(rows0) && Legal(rows) && DistinctIds(connections) && turn <= i < |connections|
    requires NamedAt(rows0, rows, connections, turn)
    ensures ScopeOf(rows, connections[i].integrationId) == ScopeOf(rows0, connections[i].integrationId)
    ensures !WrittenBefore(rows0, connections, turn, connections[i].integrationId)
  {
    var ref := connections[i].integrationId;
    if id :| RowFor(rows0, ref, id) {
      ScopeOfRow(rows0, ref, id);
      assert RowFor(rows, ref, id);
      ScopeOfRow(rows, ref, id);
    } else {
      forall id | RowFor(rows, ref, id) ensures RowFor(rows0, ref, id) {
        RowWasThere(rows0, rows, connections, turn, ref, id);
      }
    }
  }

  /** A row written before turn `i` has the name and the scope of its connection. */
  lemma WrittenRow(rows0: map<nat, Credential>, rows: map<nat, Credential>, connections: seq<Connection>, i: nat,
                   k: nat, id: nat)
    requires Legal(rows) && k < i <= |connections| && NamedAt(rows0, rows, connections, i)
    requires HasTurn(rows0, connections[k]) && RowFor(rows, connections[k].integrationId, id)
    ensures rows[id].name == VaultRowName(connections[k])
      && rows[id].scope == ScopeOf(rows0, connections[k].integrationId)
  {
    assert NamedFor(rows0, rows, connections[k]);
    var other :| RowFor(rows, connections[k].integrationId, other) && rows[other].name == VaultRowName(connections[k])
      && rows[other].scope == ScopeOf(rows0, connections[k].integrationId);
    assert SharesOwner(rows, other, id);
  }

  lemma ClashWasComing(rows0: map<nat, Credential>, rows: map<nat, Credential>, connections: seq<Connection>, i: nat)
    requires Legal(rows0) && Legal(rows) && DistinctIds(connections) && i < |connections|
    requires NamedAt(rows0, rows, connections, i) && Clashes(rows, connections[i])
    ensures ClashesAtTurn(rows0, connections, i)
  {
    var c := connections[i];
    ScopeStays(rows0, rows, connections, i, i);
    var other :| other in rows && rows[other].name == VaultRowName(c)
      && rows[other].scope == ScopeOf(rows, c.integrationId)
      && rows[other].owner != Some(OwnerOf(c.integrationId));
    if RowWrittenBefore(rows0, connections, i, rows[other]) {
      var k :| 0 <= k < i && HasTurn(rows0, connections[k])
        && connections[k].integrationId == rows[other].owner.value.ref;
      WrittenRow(rows0, rows, connections, i, k, other);
      assert NamedAlike(rows0, connections, k, i);
    } else {
      assert TakesName(rows0, connections, i, other);
    }
  }

  lemma ClashComes(rows0: map<nat, Credential>, rows: map<nat, Credential>, connections: seq<Connection>, i: nat)
    requires Legal(rows0) && Legal(rows) && DistinctIds(connections) && i < |connections|
    requires NamedAt(rows0, rows, connections, i) && ClashesAtTurn(rows0, connections, i)
    ensures Clashes(rows, connections[i])
  {
    var c := connections[i];
    ScopeStays(rows0, rows, connections, i, i);
    if other :| TakesName(rows0, connections, i, other) {
      assert !RowWrittenBefore(rows0, connections, i, rows[other]);
      assert rows[other] == rows0[other];
    } else {
      var k :| NamedAlike(rows0, connections, k, i);
      assert NamedFor(rows0, rows, connections[k]);
      assert OwnerOf(connections[k].integrationId) != OwnerOf(c.integrationId);
    }
  }

  /** Whether the upsert at turn `i` clashes can be read off the rows before the run. */
  lemma ClashShowsBeforehand(rows0: map<nat, Credential>, rows: map<nat, Credential>, connections: seq<Connection>,
                             i: nat)
    requires Legal(rows0) && Legal(rows) && DistinctIds(connections) && i < |connections|
    requires NamedAt(rows0, rows, connections, i)
    ensures Clashes(rows, connections[i]) <==> ClashesAtTurn(rows0, connections, i)
  {
    if Clashes(rows, connections[i]) {
      ClashWasComing(rows0, rows, connections, i);
    }
    if ClashesAtTurn(rows0, connections, i) {
      ClashComes(rows0, rows, connections, i);
    }
  }

  lemma WrittenBeforeNext(rows0: map<nat, Credential>, connections: seq<Connection>, i: nat, ref: string)
    requires i < |connections|
    ensures WrittenBefore(rows0, connections, i + 1, ref)
      <==> (|| WrittenBefore(rows0, connections, i, ref)
            || (HasTurn(rows0, connections[i]) && connections[i].integrationId == ref))
  {
    if WrittenBefore(rows0, connections, i, ref) {
      var k :| 0 <= k < i && HasTurn(rows0, connections[k]) && connections[k].integrationId == ref;
      assert k < i + 1;
    }
  }

  /** A turn that is skipped. */
  lemma NamedSkips(rows0: map<nat, Credential>, rows: map<nat, Credential>, connections: seq<Connection>, i: nat)
    requires i < |connections| && !HasTurn(rows0, connections[i]) && NamedAt(rows0, rows, connections, i)
    ensures NamedAt(rows0, rows, connections, i + 1)
  {
    forall ref ensures WrittenBefore(rows0, connections, i + 1, ref) == WrittenBefore(rows0, connections, i, ref) {
      WrittenBeforeNext(rows0, connections, i, ref);
    }
    forall id | id in rows && !RowWrittenBefore(rows0, connections, i + 1, rows[id])
      ensures id in rows0 && rows[id] == rows0[id]
    {
      assert !RowWrittenBefore(rows0, connections, i, rows[id]);
    }
  }

  lemma UntouchedAtTurn(rows0: map<nat, Credential>, before: map<nat, Credential>, after: map<nat, Credential>,
                        connections: seq<Connection>, i: nat, id: nat)
    requires i < |connections| && HasTurn(rows0, connections[i]) && NamedAt(rows0, before, connections, i)
    requires Legal(after) && Evolved(before, after, {connections[i].integrationId})
    requires OnlyTouches(before, after, connections[i].integrationId)
    requires id in after && !RowWrittenBefore(rows0, connections, i + 1, after[id])
    ensures id in rows0 && after[id] == rows0[id]
  {
    var c := connections[i];
    if after[id].owner.Some? {
      WrittenBeforeNext(rows0, connections, i, after[id].owner.value.ref);
    }
    assert id in before ==> RowKept(before, after, id);
    assert id in before && after[id] == before[id];
    assert !RowWrittenBefore(rows0, connections, i, before[id]);
  }

  lemma ScopeOfWritten(before: map<nat, Credential>, after: map<nat, Credential>, c: Connection)
    requires Legal(before) && Legal(after) && Evolved(before, after, {c.integrationId})
    requires exists id :: RowFor(after, c.integrationId, id) && after[id].name == VaultRowName(c)
    requires forall id :: id in after && id !in before ==> after[id].scope == Account
    ensures NamedFor(before, after, c)
  {
    var id :| RowFor(after, c.integrationId, id) && after[id].name == VaultRowName(c);
    if id in before {
      assert RowKept(before, after, id);
      assert RowFor(before, c.integrationId, id);
      ScopeOfRow(before, c.integrationId, id);
    } else {
      forall other ensures !RowFor(before, c.integrationId, other) {
        if RowFor(before, c.integrationId, other) {
          assert RowKept(before, after, other);
          assert SharesOwner(after, id, other);
        }
      }
    }
  }

  lemma NamedStays(rows0: map<nat, Credential>, before: map<nat, Credential>, after: map<nat, Credential>,
                   c: Connection, ref: string)
    requires NamedFor(rows0, before, c) && c.integrationId != ref && OnlyTouches(before, after, ref)
    ensures NamedFor(rows0, after, c)
  {
    var id :| RowFor(before, c.integrationId, id) && before[id].name == VaultRowName(c)
      && before[id].scope == ScopeOf(rows0, c.integrationId);
    assert after[id] == before[id];
    assert RowFor(after, c.integrationId, id);
  }

  lemma NamesStay(rows0: map<nat, Credential>, before: map<nat, Credential>, after: map<nat, Credential>,
                  connections: seq<Connection>, i: nat)
    requires DistinctIds(connections) && i < |connections| && NamedAt(rows0, before, connections, i)
    requires OnlyTouches(before, after, connections[i].integrationId)
    ensures forall k :: 0 <= k < i && HasTurn(rows0, connections[k]) ==> NamedFor(rows0, after, connections[k])
  {
    forall k | 0 <= k < i && HasTurn(rows0, connections[k]) ensures NamedFor(rows0, after, connections[k]) {
      assert NamedFor(rows0, before, connections[k]);
      NamedStays(rows0, before, after, connections[k], connections[i].integrationId);
    }
  }

  /** A turn that is taken. */
  lemma NamedNext(rows0: map<nat, Credential>, before: map<nat, Credential>, after: map<nat, Credential>,
                  connections: seq<Connection>, i: nat)
    requires Legal(rows0) && Legal(before) && Legal(after) && DistinctIds(connections) && i < |connections|
    requires HasTurn(rows0, connections[i]) && NamedAt(rows0, before, connections, i)
    requires Evolved(before, after, {connections[i].integrationId})
      && OnlyTouches(before, after, connections[i].integrationId)
    requires exists id ::
      RowFor(after, connections[i].integrationId, id) && after[id].name == VaultRowName(connections[i])
    requires forall id :: id in after && id !in before ==> after[id].scope == Account
    ensures NamedAt(rows0, after, connections, i + 1)
  {
    var c := connections[i];
    ScopeStays(rows0, before, connections, i, i);
    forall id | id in after && !RowWrittenBefore(rows0, connections, i + 1, after[id])
      ensures id in rows0 && after[id] == rows0[id]
    {
      UntouchedAtTurn(rows0, before, after, connections, i, id);
    }
    forall id | id in rows0
      ensures id in after && after[id].owner == rows0[id].owner && after[id].scope == rows0[id].scope
    {
      assert RowKept(before, after, id);
    }
    ScopeOfWritten(before, after, c);
    NamesStay(rows0, before, after, connections, i);
    forall k | 0 <= k < i + 1 && HasTurn(rows0, connections[k]) ensures NamedFor(rows0, after, connections[k]) {
      assert k == i || k < i;
    }
  }

  // ----- Turns taken so far -----

  /** The loop stands at turn `turn`: nothing before it blocks. */
  ghost predicate TurnsAt(rows0: map<nat, Credential>, rows: map<nat, Credential>, connections: seq<Connection>,
                          turn: nat)
  {
    && turn <= |connections| && NamedAt(rows0, rows, connections, turn)
    && forall k :: 0 <= k < turn ==> !Blocks(rows0, connections, k)
  }

  /** No connection in the list blocks. */
  ghost predicate Unblocked(rows: map<nat, Credential>, connections: seq<Connection>) {
    forall i :: 0 <= i < |connections| ==> !Blocks(rows, connections, i)
  }

  /** Every row whose connection comes at turn `i` or later, or in no turn at all, is
      still to be looked at: it is as before the run, and none was added. */
  ghost predicate Waiting(rows0: map<nat, Credential>, rows: map<nat, Credential>, connections: seq<Connection>, i: nat)
    requires i <= |connections|
  {
    && (forall id :: id in rows0 && !RowWrittenBefore(rows0, connections, i, rows0[id]) ==>
      id in rows && rows[id] == rows0[id])
    && (forall id :: id in rows && id !in rows0 ==> RowWrittenBefore(rows0, connections, i, rows[id]))
  }

  /** A turn that blocks is as far as the loop gets. */
  lemma BlockedRowsWait(rows0: map<nat, Credential>, rows: map<nat, Credential>, connections: seq<Connection>,
                        turn: nat, i: nat)
    requires i < |connections| && Blocks(rows0, connections, i) && TurnsAt(rows0, rows, connections, turn)
    ensures turn <= i && Waiting(rows0, rows, connections, i)
  {
    forall row: Credential | RowWrittenBefore(rows0, connections, turn, row)
      ensures RowWrittenBefore(rows0, connections, i, row)
    {
      var k :| 0 <= k < turn && HasTurn(rows0, connections[k]) && connections[k].integrationId == row.owner.value.ref;
      assert k < i;
    }
    forall id | id in rows0 && !RowWrittenBefore(rows0, connections, i, rows0[id])
      ensures id in rows && rows[id] == rows0[id]
    {
      assert !RowWrittenBefore(rows0, connections, turn, rows[id]);
    }
  }

  // ----- A cut-off run decides nothing about names -----

  /** Where the first loop was cut off, with the connections before it active. */
  ghost predicate CutOff(rows0: map<nat, Credential>, rows: map<nat, Credential>, connections: seq<Connection>,
                         turn: nat)
  {
    && TurnsAt(rows0, rows, connections, turn)
    && ActiveRefs(rows) == ActiveRefs(rows0) + LiveRefs(connections[..turn])
  }

  lemma TurnsLeft(rows0: map<nat, Credential>, rows: map<nat, Credential>, connections: seq<Connection>, turn: nat,
                  i: nat)
    requires DistinctIds(connections) && i < |connections| && CutOff(rows0, rows, connections, turn)
    ensures HasTurn(rows, connections[i]) <==> HasTurn(rows0, connections[i]) && turn <= i
  {
    var ref := connections[i].integrationId;
    LiveRefsAre(connections[..turn], ref);
    if i < turn {
      assert connections[..turn][i] == connections[i];
    } else {
      forall k | 0 <= k < turn ensures connections[..turn][k].integrationId != ref {
        assert connections[k].integrationId != connections[i].integrationId;
      }
    }
  }

  lemma NamedAlikeStays(rows0: map<nat, Credential>, rows: map<nat, Credential>, connections: seq<Connection>,
                        turn: nat, k: int, i: nat)
    requires Legal(rows0) && Legal(rows) && DistinctIds(connections) && turn <= i < |connections|
    requires CutOff(rows0, rows, connections, turn)
    ensures NamedAlike(rows, connections, k, i) <==> NamedAlike(rows0, connections, k, i) && turn <= k
  {
    if 0 <= k < i {
      TurnsLeft(rows0, rows, connections, turn, k);
      ScopeStays(rows0, rows, connections, turn, i);
      if turn <= k {
        ScopeStays(rows0, rows, connections, turn, k);
      }
    }
  }

  /** Which refs the next run still has to write before turn `i`. */
  lemma WrittenStays(rows0: map<nat, Credential>, rows: map<nat, Credential>, connections: seq<Connection>, turn: nat,
                     i: nat, ref: string)
    requires DistinctIds(connections) && turn <= i <= |connections| && CutOff(rows0, rows, connections, turn)
    ensures WrittenBefore(rows0, connections, i, ref)
      <==> WrittenBefore(rows0, connections, turn, ref) || WrittenBefore(rows, connections, i, ref)
    ensures !(WrittenBefore(rows0, connections, turn, ref) && WrittenBefore(rows, connections, i, ref))
  {
    if k :| 0 <= k < i && HasTurn(rows0, connections[k]) && connections[k].integrationId == ref {
      TurnsLeft(rows0, rows, connections, turn, k);
    }
    if k :| 0 <= k < i && HasTurn(rows, connections[k]) && connections[k].integrationId == ref {
      TurnsLeft(rows0, rows, connections, turn, k);
      if j :| 0 <= j < turn && HasTurn(rows0, connections[j]) && connections[j].integrationId == ref {
        assert false;
      }
    }
  }

  lemma TakenStays(rows0: map<nat, Credential>, rows: map<nat, Credential>, connections: seq<Connection>, turn: nat,
                   i: nat, other: nat)
    requires Legal(rows0) && Legal(rows) && DistinctIds(connections) && turn <= i < |connections|
    requires CutOff(rows0, rows, connections, turn)
    ensures TakesName(rows0, connections, i, other) ==> TakesName(rows, connections, i, other)
    ensures TakesName(rows, connections, i, other) ==> ClashesAtTurn(rows0, connections, i)
  {
    ScopeStays(rows0, rows, connections, turn, i);
    if other in rows && rows[other].owner.Some? {
      WrittenStays(rows0, rows, connections, turn, i, rows[other].owner.value.ref);
    }
    if TakesName(rows0, connections, i, other) {
      assert !RowWrittenBefore(rows0, connections, turn, rows[other]);
    }
    if TakesName(rows, connections, i, other) {
      if RowWrittenBefore(rows0, connections, turn, rows[other]) {
        var k :| 0 <= k < turn && HasTurn(rows0, connections[k])
          && connections[k].integrationId == rows[other].owner.value.ref;
        WrittenRow(rows0, rows, connections, turn, k, other);
        assert NamedAlike(rows0, connections, k, i);
      } else {
        assert TakesName(rows0, connections, i, other);
      }
    }
  }

  /** The row an earlier turn wrote takes the name from then on. */
  lemma WrittenTakesName(rows0: map<nat, Credential>, rows: map<nat, Credential>, connections: seq<Connection>,
                         turn: nat, k: nat, i: nat)
    requires Legal(rows0) && Legal(rows) && DistinctIds(connections) && k < turn <= i < |connections|
    requires CutOff(rows0, rows, connections, turn) && NamedAlike(rows0, connections, k, i)
    ensures ClashesAtTurn(rows, connections, i)
  {
    ScopeStays(rows0, rows, connections, turn, i);
    assert NamedFor(rows0, rows, connections[k]);
    var id :| RowFor(rows, connections[k].integrationId, id) && rows[id].name == VaultRowName(connections[k])
      && rows[id].scope == ScopeOf(rows0, connections[k].integrationId);
    assert connections[k].integrationId != connections[i].integrationId;
    assert WrittenBefore(rows0, connections, turn, connections[k].integrationId);
    WrittenStays(rows0, rows, connections, turn, i, connections[k].integrationId);
    assert TakesName(rows, connections, i, id);
  }

  /** A run cut off in its first loop leaves exactly the same turns blocked. */
  lemma BlocksStay(rows0: map<nat, Credential>, rows: map<nat, Credential>, connections: seq<Connection>, turn: nat,
                   i: nat)
    requires Legal(rows0) && Legal(rows) && DistinctIds(connections) && i < |connections|
    requires CutOff(rows0, rows, connections, turn)
    ensures Blocks(rows, connections, i) <==> Blocks(rows0, connections, i)
  {
    TurnsLeft(rows0, rows, connections, turn, i);
    if turn <= i {
      if ClashesAtTurn(rows0, connections, i) {
        if other :| TakesName(rows0, connections, i, other) {
          TakenStays(rows0, rows, connections, turn, i, other);
        } else {
          var k :| NamedAlike(rows0, connections, k, i);
          NamedAlikeStays(rows0, rows, connections, turn, k, i);
          if k < turn {
            WrittenTakesName(rows0, rows, connections, turn, k, i);
          }
        }
      }
      if ClashesAtTurn(rows, connections, i) {
        if other :| TakesName(rows, connections, i, other) {
          TakenStays(rows0, rows, connections, turn, i, other);
        } else {
          var k :| NamedAlike(rows, connections, k, i);
          NamedAlikeStays(rows0, rows, connections, turn, k, i);
        }
      }
    }
  }

  /** A static credential that happens to have the name of a new connection's row: the
      connection's turn blocks. */
  lemma TakenNameBlocks(c: Connection, secret: Cipher)
    requires IsConnectionProvider(c.provider)
    ensures var named := Credential(VaultRowName(c), c.provider, Static, Some(secret), Scalar, "", Account, None, true);
      Legal(map[0 := named]) && Blocks(map[0 := named], [c], 0)
  {
    var named := Credential(VaultRowName(c), c.provider, Static, Some(secret), Scalar, "", Account, None, true);
    var rows: map<nat, Credential> := map[0 := named];
    assert ScopeOf(rows, c.integrationId) == Account;
    assert TakesName(rows, [c], 0, 0);
  }
}
