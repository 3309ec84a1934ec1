/** The reconciliation of the vault's oauth rows with the live connections, one
    fallible write at a time. */
module VaultSync {
  import opened Wrappers
  import opened Vault
  import opened VaultRows
  import opened VaultTurns

  // ----- One run -----

  /** The snapshot a run decides from: existing oauth rows by owner ref. */
  ghost predicate SnapshotOf(byRef: map<string, Credential>, rows: map<nat, Credential>) {
    && (forall ref :: ref in byRef <==> exists id :: RowFor(rows, ref, id))
    && (forall ref :: ref in byRef ==> (byRef[ref].active <==> ref in ActiveRefs(rows)))
  }

  lemma SnapshotStates(rows: map<nat, Credential>, byRef: map<string, Credential>)
    requires Legal(rows)
    requires forall ref :: ref in byRef ==> exists id :: RowFor(rows, ref, id) && byRef[ref] == rows[id]
    ensures forall ref :: ref in byRef ==> (byRef[ref].active <==> ref in ActiveRefs(rows))
  {
    forall ref | ref in byRef ensures byRef[ref].active <==> ref in ActiveRefs(rows) {
      var id :| RowFor(rows, ref, id) && byRef[ref] == rows[id];
      if rows[id].active {
        ActiveRefsHas(rows, id);
      }
      if ref in ActiveRefs(rows) {
        var other :| other in rows && rows[other].owner.Some? && rows[other].active
          && rows[other].owner.value.ref == ref;
        assert SharesOwner(rows, other, id);
      }
    }
  }

  method Snapshot(rows: map<nat, Credential>) returns (byRef: map<string, Credential>)
    requires Legal(rows)
    ensures SnapshotOf(byRef, rows)
  {
    byRef := map[];
    var todo := rows.Keys;
    while todo != {}
      invariant todo <= rows.Keys
      invariant forall ref :: ref in byRef <==> exists id :: RowFor(rows, ref, id) && id !in todo
      invariant forall ref :: ref in byRef ==> exists id :: RowFor(rows, ref, id) && byRef[ref] == rows[id]
      decreases |todo|
    {
      var id :| id in todo;
      todo := todo - {id};
      if rows[id].owner.Some? {
        ghost var before := byRef;
        byRef := byRef[rows[id].owner.value.ref := rows[id]];
        assert RowFor(rows, rows[id].owner.value.ref, id);
        assert forall ref :: ref in byRef ==> ref in before || ref == rows[id].owner.value.ref;
      }
    }
    SnapshotStates(rows, byRef);
  }

  lemma LiveRefsNext(connections: seq<Connection>, i: nat)
    requires i < |connections|
    ensures LiveRefs(connections[..i + 1]) == LiveRefs(connections[..i])
      + if IsConnectionProvider(connections[i].provider) then {connections[i].integrationId} else {}
  {
    assert connections[..i + 1][..i] == connections[..i];
  }

  lemma LiveRefsVisit(connections: seq<Connection>, i: nat)
    requires i < |connections| && DistinctIds(connections) && IsConnectionProvider(connections[i].provider)
    ensures connections[i].integrationId in LiveRefs(connections)
    ensures connections[i].integrationId !in LiveRefs(connections[..i])
  {
    var ref := connections[i].integrationId;
    LiveRefsAre(connections, ref);
    LiveRefsAre(connections[..i], ref);
    forall k | 0 <= k < i ensures connections[..i][k].integrationId != ref {
      assert connections[k].integrationId != connections[i].integrationId;
    }
  }

  lemma Split(whole: set<string>, part: set<string>)
    requires part <= whole
    ensures |whole - part| == |whole| - |part|
  {
    assert whole == (whole - part) + part;
  }

  /** How far a run has come: live refs below the cursor are active, refs already
      visited by the second loop are not, everything else is as it was. */
  ghost predicate Progress(active0: set<string>, active: set<string>, done: set<string>, gone: set<string>) {
    active == (active0 + done) - gone
  }

  /** Each completed write has removed exactly one mismatched ref. */
  lemma MismatchLeft(rows0: map<nat, Credential>, rows: map<nat, Credential>, live: set<string>,
                     done: set<string>, gone: set<string>)
    requires done <= live && gone <= ActiveRefs(rows0) - live
    requires Progress(ActiveRefs(rows0), ActiveRefs(rows), done, gone)
    ensures |Mismatched(rows, live)| + |done - ActiveRefs(rows0)| + |gone| == |Mismatched(rows0, live)|
  {
    var active0 := ActiveRefs(rows0);
    assert Mismatched(rows, live) == Mismatched(rows0, live) - ((done - active0) + gone);
    assert (done - active0) !! gone;
    Split(Mismatched(rows0, live), (done - active0) + gone);
  }

  lemma EvolvedStep(a: map<nat, Credential>, b: map<nat, Credential>, c: map<nat, Credential>,
                    some: set<string>, live: set<string>)
    requires Evolved(a, b, live) && Evolved(b, c, some) && some <= live
    ensures Evolved(a, c, live)
  {
  }

  datatype Visit = Skipped | Written | Refused

  lemma ActiveHasRow(rows: map<nat, Credential>, ref: string)
    requires Legal(rows) && ref in ActiveRefs(rows)
    ensures exists id :: RowFor(rows, ref, id)
  {
    var id :| id in rows && rows[id].owner.Some? && rows[id].active && rows[id].owner.value.ref == ref;
    assert RowFor(rows, ref, id);
  }

  lemma NotActive(rows: map<nat, Credential>, byRef: map<string, Credential>, ref: string)
    requires SnapshotOf(byRef, rows) && !(ref in byRef && byRef[ref].active)
    requires forall id :: id in rows && rows[id].owner.Some? ==> rows[id].owner.value.store == AGENT_INTEGRATION
    ensures ref !in ActiveRefs(rows)
  {
    if ref in ActiveRefs(rows) {
      var id :| id in rows && rows[id].owner.Some? && rows[id].active && rows[id].owner.value.ref == ref;
      assert RowFor(rows, ref, id);
    }
  }

  /** One live connection: nothing to do if the snapshot shows its row active,
      an upsert otherwise. */
  method VisitLive(table: VaultTable, c: Connection, byRef: map<string, Credential>, fault: bool,
                   ghost rows0: map<nat, Credential>, ghost done: set<string>)
    returns (visit: Visit)
    requires table.Valid() && Legal(rows0) && SnapshotOf(byRef, rows0)
    requires Progress(ActiveRefs(rows0), ActiveRefs(table.rows), done, {}) && c.integrationId !in done
    modifies table
    ensures table.Valid()
    ensures Evolved(old(table.rows), table.rows, {c.integrationId})
    ensures Appended(old(table.rows), table.rows, old(table.nextId)) && table.nextId >= old(table.nextId)
    ensures !visit.Written? ==> table.rows == old(table.rows)
    ensures visit.Refused? <==> c.integrationId !in ActiveRefs(rows0) && (fault || Clashes(old(table.rows), c))
    ensures visit.Refused? ==> c.integrationId !in ActiveRefs(table.rows)
    ensures visit.Written? ==> OnlyTouches(old(table.rows), table.rows, c.integrationId)
    ensures visit.Written? ==>
      exists id :: RowFor(table.rows, c.integrationId, id) && table.rows[id].name == VaultRowName(c)
    ensures forall id :: id in table.rows && id !in old(table.rows) ==> table.rows[id].scope == Account
    ensures !visit.Refused? ==> Progress(ActiveRefs(rows0), ActiveRefs(table.rows), done + {c.integrationId}, {})
    ensures visit.Skipped? ==> c.integrationId in ActiveRefs(rows0)
    ensures visit.Written? ==> c.integrationId !in ActiveRefs(rows0)
  {
    if c.integrationId in byRef && byRef[c.integrationId].active {
      return Skipped;
    }
    NotActive(rows0, byRef, c.integrationId);
    var upserted := table.UpsertOAuthRow(c, fault);
    if !upserted {
      return Refused;
    }
    ActiveHasRow(table.rows, c.integrationId);
    return Written;
  }

  /** A run after some live connections were visited. */
  ghost predicate Upserted(rows0: map<nat, Credential>, rows: map<nat, Credential>, connections: seq<Connection>,
                           live: set<string>, writes: nat) {
    && Evolved(rows0, rows, LiveRefs(connections))
    && live <= LiveRefs(connections)
    && Progress(ActiveRefs(rows0), ActiveRefs(rows), live, {})
    && writes == |live - ActiveRefs(rows0)|
    && (writes == 0 ==> rows == rows0)
  }

  lemma Counting(done: set<string>, active0: set<string>, ref: string)
    requires ref !in done
    ensures |(done + {ref}) - active0| == |done - active0| + if ref in active0 then 0 else 1
  {
    if ref in active0 {
      assert (done + {ref}) - active0 == done - active0;
    } else {
      assert (done + {ref}) - active0 == (done - active0) + {ref};
    }
  }

  lemma UpsertedNext(rows0: map<nat, Credential>, before: map<nat, Credential>, after: map<nat, Credential>,
                     connections: seq<Connection>, live: set<string>, writes: nat, ref: string, written: bool)
    requires Upserted(rows0, before, connections, live, writes)
    requires ref !in live && ref in LiveRefs(connections)
    requires Evolved(before, after, {ref})
    requires Progress(ActiveRefs(rows0), ActiveRefs(after), live + {ref}, {})
    requires written <==> ref !in ActiveRefs(rows0)
    requires !written ==> after == before
    ensures Upserted(rows0, after, connections, live + {ref}, writes + if written then 1 else 0)
  {
    EvolvedStep(rows0, before, after, {ref}, LiveRefs(connections));
    Counting(live, ActiveRefs(rows0), ref);
  }

  lemma AppendedStep(a: map<nat, Credential>, b: map<nat, Credential>, c: map<nat, Credential>, first: nat, next: nat)
    requires Appended(a, b, first) && Appended(b, c, next) && first <= next
    ensures Appended(a, c, first)
  {
  }

  /** The first loop before connection `i`. */
  ghost predicate UpsertingAt(rows0: map<nat, Credential>, first: nat, rows: map<nat, Credential>, nextId: nat,
                              connections: seq<Connection>, i: nat, live: set<string>, writes: nat)
    requires i <= |connections|
  {
    && live == LiveRefs(connections[..i])
    && Upserted(rows0, rows, connections, live, writes)
    && Appended(rows0, rows, first) && first <= nextId
  }

  lemma UpsertingStarts(rows: map<nat, Credential>, nextId: nat, connections: seq<Connection>)
    ensures UpsertingAt(rows, nextId, rows, nextId, connections, 0, {}, 0) && TurnsAt(rows, rows, connections, 0)
  {
    assert LiveRefs([]) == {} && connections[..0] == [];
    assert {} - ActiveRefs(rows) == {};
  }

  lemma UpsertingSkips(rows0: map<nat, Credential>, first: nat, rows: map<nat, Credential>, nextId: nat,
                       connections: seq<Connection>, i: nat, live: set<string>, writes: nat)
    requires i < |connections| && !IsConnectionProvider(connections[i].provider)
    requires UpsertingAt(rows0, first, rows, nextId, connections, i, live, writes)
      && TurnsAt(rows0, rows, connections, i)
    ensures UpsertingAt(rows0, first, rows, nextId, connections, i + 1, live, writes)
      && TurnsAt(rows0, rows, connections, i + 1)
  {
    LiveRefsNext(connections, i);
    NamedSkips(rows0, rows, connections, i);
  }

  lemma UpsertingEnds(rows0: map<nat, Credential>, first: nat, rows: map<nat, Credential>, nextId: nat,
                      connections: seq<Connection>, i: nat, live: set<string>, writes: nat)
    requires i <= |connections| && UpsertingAt(rows0, first, rows, nextId, connections, i, live, writes)
    requires TurnsAt(rows0, rows, connections, i)
    ensures CutOff(rows0, rows, connections, i)
    ensures Upserted(rows0, rows, connections, live, writes) && Appended(rows0, rows, first)
    ensures i == |connections| ==> live == LiveRefs(connections)
  {
    assert connections[..|connections|] == connections;
  }

  /** Why the first loop stops at a connection, and what that leaves undone. */
  ghost predicate StopsAt(rows0: map<nat, Credential>, rows: map<nat, Credential>, connections: seq<Connection>, i: nat,
                          fault: bool)
    requires i < |connections|
  {
    var c := connections[i];
    && HasTurn(rows0, c)
    && (fault || (Blocks(rows0, connections, i) && Clashes(rows, c)))
    && c.integrationId in LiveRefs(connections) && c.integrationId !in ActiveRefs(rows)
  }

  /** A turn that did not stop the loop. */
  lemma TurnTaken(rows0: map<nat, Credential>, before: map<nat, Credential>, after: map<nat, Credential>,
                  connections: seq<Connection>, i: nat, visit: Visit)
    requires Legal(rows0) && Legal(before) && Legal(after) && DistinctIds(connections) && i < |connections|
    requires TurnsAt(rows0, before, connections, i)
    requires visit.Skipped? ==> !HasTurn(rows0, connections[i]) && after == before
    requires visit.Written? ==> HasTurn(rows0, connections[i]) && !ClashesAtTurn(rows0, connections, i)
    requires Evolved(before, after, {connections[i].integrationId})
    requires visit.Written? ==> OnlyTouches(before, after, connections[i].integrationId)
    requires visit.Written? ==>
      exists id :: RowFor(after, connections[i].integrationId, id) && after[id].name == VaultRowName(connections[i])
    requires forall id :: id in after && id !in before ==> after[id].scope == Account
    requires !visit.Refused?
    ensures TurnsAt(rows0, after, connections, i + 1)
  {
    if visit.Written? {
      NamedNext(rows0, before, after, connections, i);
    } else {
      NamedSkips(rows0, before, connections, i);
    }
  }

  /** One turn of the first loop. */
  method UpsertOne(table: VaultTable, connections: seq<Connection>, i: nat, byRef: map<string, Credential>, fault: bool,
                   live: set<string>, writes: nat, ghost rows0: map<nat, Credential>, ghost first: nat)
    returns (visit: Visit, live': set<string>, writes': nat)
    requires table.Valid() && Legal(rows0) && DistinctIds(connections) && SnapshotOf(byRef, rows0)
    requires i < |connections| && IsConnectionProvider(connections[i].provider)
    requires UpsertingAt(rows0, first, table.rows, table.nextId, connections, i, live, writes)
    requires TurnsAt(rows0, table.rows, connections, i)
    modifies table
    ensures table.Valid()
    ensures visit.Refused? ==> writes' == writes
    ensures visit.Refused? ==> StopsAt(rows0, table.rows, connections, i, fault)
    ensures TurnsAt(rows0, table.rows, connections, if visit.Refused? then i else i + 1)
    ensures UpsertingAt(rows0, first, table.rows, table.nextId, connections,
                        if visit.Refused? then i else i + 1, live', writes')
  {
    live', writes' := live, writes;
    LiveRefsNext(connections, i);
    LiveRefsVisit(connections, i);
    var ref := connections[i].integrationId;
    ghost var before, next := table.rows, table.nextId;
    ClashShowsBeforehand(rows0, before, connections, i);
    visit := VisitLive(table, connections[i], byRef, fault, rows0, live);
    if visit.Refused? {
      return;
    }
    TurnTaken(rows0, before, table.rows, connections, i, visit);
    AppendedStep(rows0, before, table.rows, first, next);
    UpsertedNext(rows0, before, table.rows, connections, live, writes, ref, visit.Written?);
    live', writes' := live + {ref}, writes + if visit.Written? then 1 else 0;
  }

  /** The first loop of a run, over the live connections, up to the turn it gets to. */
  method UpsertLive(table: VaultTable, connections: seq<Connection>, byRef: map<string, Credential>,
                    faults: nat -> bool)
    returns (ok: bool, writes: nat, live: set<string>, ghost turn: nat)
    requires table.Valid() && DistinctIds(connections) && SnapshotOf(byRef, table.rows)
    modifies table
    ensures table.Valid()
    ensures Upserted(old(table.rows), table.rows, connections, live, writes)
    ensures Appended(old(table.rows), table.rows, old(table.nextId))
    ensures ok ==> live == LiveRefs(connections)
    ensures CutOff(old(table.rows), table.rows, connections, turn)
    ensures ok <==> turn == |connections|
    ensures !ok ==> StopsAt(old(table.rows), table.rows, connections, turn, faults(writes))
  {
    ghost var rows0 := table.rows;
    ghost var first := table.nextId;
    live := {};
    writes := 0;
    ok := true;
    var i := 0;
    UpsertingStarts(rows0, first, connections);
    while ok && i < |connections|
      invariant i <= |connections| && table.Valid()
      invariant UpsertingAt(rows0, first, table.rows, table.nextId, connections, i, live, writes)
      invariant TurnsAt(rows0, table.rows, connections, i)
      invariant ok || (i < |connections| && StopsAt(rows0, table.rows, connections, i, faults(writes)))
      decreases |connections| - i, ok
    {
      if !IsConnectionProvider(connections[i].provider) {
        UpsertingSkips(rows0, first, table.rows, table.nextId, connections, i, live, writes);
        i := i + 1;
        continue;
      }
      var visit;
      visit, live, writes := UpsertOne(table, connections, i, byRef, faults(writes), live, writes, rows0, first);
      ok := !visit.Refused?;
      i := if ok then i + 1 else i;
    }
    turn := i;
    UpsertingEnds(rows0, first, table.rows, table.nextId, connections, i, live, writes);
  }

  /** A run whose second loop has deactivated the refs `gone`. */
  ghost predicate Deactivated(rows0: map<nat, Credential>, start: map<nat, Credential>, rows: map<nat, Credential>,
                              live: set<string>, gone: set<string>) {
    && Evolved(start, rows, live)
    && Progress(ActiveRefs(rows0), ActiveRefs(rows), live, gone)
    && (gone == {} ==> rows == start)
  }

  lemma DeactivatedNext(rows0: map<nat, Credential>, start: map<nat, Credential>, before: map<nat, Credential>,
                        after: map<nat, Credential>, live: set<string>, gone: set<string>, ref: string)
    requires Deactivated(rows0, start, before, live, gone)
    requires Evolved(before, after, {}) && ActiveRefs(after) == ActiveRefs(before) - {ref}
    ensures Deactivated(rows0, start, after, live, gone + {ref})
  {
    EvolvedStep(start, before, after, {}, live);
  }

  /** One existing ref: left alone when live or already inactive. */
  method VisitGone(table: VaultTable, ref: string, row: Credential, live: set<string>, fault: bool,
                   ghost rows0: map<nat, Credential>, ghost start: map<nat, Credential>, ghost gone: set<string>)
    returns (visit: Visit)
    requires table.Valid() && Deactivated(rows0, start, table.rows, live, gone)
    modifies table
    ensures table.Valid()
    ensures visit.Skipped? <==> ref in live || !row.active
    ensures visit.Refused? ==> fault
    ensures table.rows.Keys == old(table.rows.Keys)
    ensures Deactivated(rows0, start, table.rows, live, if visit.Written? then gone + {ref} else gone)
  {
    if ref in live || !row.active {
      return Skipped;
    }
    ghost var before := table.rows;
    var deactivated := table.DeactivateOAuthRow(ref, fault);
    if !deactivated {
      return Refused;
    }
    DeactivatedNext(rows0, start, before, table.rows, live, gone, ref);
    return Written;
  }

  /** The snapshot's refs the second loop has to write. */
  ghost function Departed(byRef: map<string, Credential>, live: set<string>): set<string> {
    set ref | ref in byRef && ref !in live && byRef[ref].active
  }

  lemma SnapshotCovers(rows: map<nat, Credential>, byRef: map<string, Credential>, live: set<string>)
    requires Legal(rows) && SnapshotOf(byRef, rows)
    ensures Departed(byRef, live) == ActiveRefs(rows) - live
  {
    forall ref | ref in ActiveRefs(rows) ensures ref in byRef {
      var id :| id in rows && rows[id].owner.Some? && rows[id].active && rows[id].owner.value.ref == ref;
      assert RowFor(rows, ref, id);
    }
  }

  /** The second loop: rows whose connection is gone, in any order. */
  method DeactivateGone(table: VaultTable, byRef: map<string, Credential>, live: set<string>, faults: nat -> bool,
                        already: nat, ghost rows0: map<nat, Credential>)
    returns (ok: bool, writes: nat, ghost gone: set<string>)
    requires table.Valid()
    requires Progress(ActiveRefs(rows0), ActiveRefs(table.rows), live, {})
    modifies table
    ensures table.Valid() && Deactivated(rows0, old(table.rows), table.rows, live, gone)
    ensures gone <= Departed(byRef, live) && writes == already + |gone|
    ensures table.rows.Keys == old(table.rows.Keys)
    ensures ok <==> Departed(byRef, live) <= gone
    ensures !ok ==> faults(writes)
  {
    gone := {};
    writes := already;
    ghost var start := table.rows;
    var todo := byRef.Keys;
    while todo != {}
      invariant todo <= byRef.Keys
      invariant table.Valid() && Deactivated(rows0, start, table.rows, live, gone)
      invariant forall r :: r in gone <==> r in byRef && r !in todo && r !in live && byRef[r].active
      invariant writes == already + |gone|
      invariant table.rows.Keys == start.Keys
      decreases |todo|
    {
      var ref :| ref in todo;
      var visit := VisitGone(table, ref, byRef[ref], live, faults(writes), rows0, start, gone);
      if visit.Refused? {
        assert ref in Departed(byRef, live) && ref !in gone;
        return false, writes, gone;
      }
      todo := todo - {ref};
      if visit.Written? {
        gone := gone + {ref};
        writes := writes + 1;
      }
    }
    ok := true;
  }

  lemma GoneMeansDone(active0: set<string>, active: set<string>, live: set<string>, gone: set<string>)
    requires Progress(active0, active, live, gone) && gone <= active0 - live
    ensures active0 - live <= gone <==> (live - active) + (active - live) == {}
  {
    var left := active0 - live - gone;
    assert (live - active) + (active - live) == left;
    if left == {} {
      forall ref | ref in active0 - live ensures ref in gone {
        assert ref !in left;
      }
    }
  }

  /** What the two loops add up to. */
  lemma RunIsComplete(rows0: map<nat, Credential>, between: map<nat, Credential>, rows: map<nat, Credential>,
                      byRef: map<string, Credential>, live: set<string>, gone: set<string>)
    requires Legal(rows0) && SnapshotOf(byRef, rows0)
    requires Evolved(rows0, between, live) && Deactivated(rows0, between, rows, live, gone)
    requires gone <= Departed(byRef, live)
    ensures Evolved(rows0, rows, live)
    ensures |Mismatched(rows, live)| + |live - ActiveRefs(rows0)| + |gone| == |Mismatched(rows0, live)|
    ensures Departed(byRef, live) <= gone <==> Mismatched(rows, live) == {}
  {
    EvolvedTransitive(rows0, between, rows, live);
    SnapshotCovers(rows0, byRef, live);
    MismatchLeft(rows0, rows, live, live, gone);
    GoneMeansDone(ActiveRefs(rows0), ActiveRefs(rows), live, gone);
  }

  lemma AllActiveBlocksNothing(rows: map<nat, Credential>, connections: seq<Connection>)
    requires LiveRefs(connections) <= ActiveRefs(rows)
    ensures Unblocked(rows, connections)
  {
    forall i | 0 <= i < |connections| ensures !Blocks(rows, connections, i) {
      LiveRefsAre(connections, connections[i].integrationId);
    }
  }

  /** What the first loop alone settles: it ends only if nothing blocks, and the rows
      behind a blocking turn wait. */
  lemma FirstLoopSettles(rows0: map<nat, Credential>, rows: map<nat, Credential>, connections: seq<Connection>,
                         turn: nat)
    requires Legal(rows0) && Legal(rows) && DistinctIds(connections) && CutOff(rows0, rows, connections, turn)
    ensures turn == |connections| ==> Unblocked(rows0, connections)
    ensures forall i :: 0 <= i < |connections| && Blocks(rows0, connections, i) ==> Waiting(rows0, rows, connections, i)
    ensures forall i :: 0 <= i < |connections| ==> (Blocks(rows, connections, i) <==> Blocks(rows0, connections, i))
  {
    forall i | 0 <= i < |connections| && Blocks(rows0, connections, i) ensures Waiting(rows0, rows, connections, i) {
      BlockedRowsWait(rows0, rows, connections, turn, i);
    }
    forall i | 0 <= i < |connections| ensures Blocks(rows, connections, i) <==> Blocks(rows0, connections, i) {
      BlocksStay(rows0, rows, connections, turn, i);
    }
  }

  /** OAuthSync.Run. `faults(k)` tells whether the k-th attempted write fails;
      `writes` counts the completed ones. A run succeeds exactly when it leaves
      no mismatch; every run, cut off or not, removes one mismatched ref per
      completed write, whatever order the refs come in; so a run over matching
      rows writes nothing. Without faults it succeeds exactly when no turn blocks,
      as the rows before it show. A turn that blocks keeps the run from every later
      connection and from the whole second loop, and it goes on blocking. */
  method Run(table: VaultTable, connections: seq<Connection>, faults: nat -> bool) returns (ok: bool, writes: nat)
    requires table.Valid() && DistinctIds(connections)
    modifies table
    ensures table.Valid()
    ensures Evolved(old(table.rows), table.rows, LiveRefs(connections))
    ensures Appended(old(table.rows), table.rows, old(table.nextId))
    ensures ok <==> Mismatched(table.rows, LiveRefs(connections)) == {}
    ensures |Mismatched(table.rows, LiveRefs(connections))| + writes
      == |Mismatched(old(table.rows), LiveRefs(connections))|
    ensures writes == 0 ==> table.rows == old(table.rows)
    ensures ok ==> Unblocked(old(table.rows), connections)
    ensures !ok ==> faults(writes) || !Unblocked(old(table.rows), connections)
    ensures forall i :: 0 <= i < |connections| && Blocks(old(table.rows), connections, i) ==>
      Waiting(old(table.rows), table.rows, connections, i)
    ensures forall i :: 0 <= i < |connections| ==>
      (Blocks(table.rows, connections, i) <==> Blocks(old(table.rows), connections, i))
    ensures !ok ==>
      || faults(writes)
      || exists c :: c in connections && IsConnectionProvider(c.provider) && Clashes(table.rows, c)
  {
    ghost var rows0 := table.rows;
    var byRef := Snapshot(table.rows);
    var live: set<string>;
    ghost var turn: nat;
    ok, writes, live, turn := UpsertLive(table, connections, byRef, faults);
    FirstLoopSettles(rows0, table.rows, connections, turn);
    if !ok {
      MismatchLeft(rows0, table.rows, LiveRefs(connections), live, {});
      return;
    }
    ghost var between := table.rows;
    ghost var gone: set<string>;
    ok, writes, gone := DeactivateGone(table, byRef, live, faults, writes, rows0);
    RunIsComplete(rows0, between, table.rows, byRef, live, gone);
    AllActiveBlocksNothing(table.rows, connections);
  }

  // ----- Many runs -----

  /** How much a run over the rows has to do, and whether some turn blocks. */
  ghost predicate Standing(rows: map<nat, Credential>, connections: seq<Connection>, left: nat, free: bool) {
    && |Mismatched(rows, LiveRefs(connections))| == left
    && (Unblocked(rows, connections) <==> free)
  }

  method RunOnce(table: VaultTable, connections: seq<Connection>, faults: nat -> bool, ghost left: nat,
                 ghost free: bool)
    returns (ok: bool, writes: nat)
    requires table.Valid() && DistinctIds(connections) && Standing(table.rows, connections, left, free)
    modifies table
    ensures table.Valid()
    ensures writes <= left && Standing(table.rows, connections, left - writes, free)
    ensures ok <==> writes == left
    ensures ok ==> free
    ensures !ok ==> faults(writes) || !free
  {
    ok, writes := Run(table, connections, faults);
  }

  function Total(writes: seq<nat>): nat {
    if writes == [] then 0 else Total(writes[..|writes| - 1]) + writes[|writes| - 1]
  }

  /** The answers of some runs, `left` being what the last of them left to do. */
  ghost predicate Answers(oks: seq<bool>, writes: seq<nat>, faults: seq<nat -> bool>, left0: nat, left: nat, free: bool)
  {
    && |oks| == |writes| == |faults| && left + Total(writes) == left0
    && (forall k :: 0 <= k < |faults| && oks[k] ==> left == 0 && free)
    && (forall j, k :: 0 <= j < k < |faults| && oks[j] ==> oks[k] && writes[k] == 0)
    && (forall k :: 0 <= k < |faults| && !oks[k] ==> faults[k](writes[k]) || !free)
  }

  lemma AnswersNext(oks: seq<bool>, writes: seq<nat>, faults: seq<nat -> bool>, i: nat, left0: nat, left: nat,
                    free: bool, ok: bool, written: nat)
    requires i < |faults| && Answers(oks, writes, faults[..i], left0, left, free) && written <= left
    requires ok <==> written == left
    requires if ok then free else faults[i](written) || !free
    ensures Answers(oks + [ok], writes + [written], faults[..i + 1], left0, left - written, free)
  {
    assert (writes + [written])[..i] == writes;
  }

  /** One more run. */
  method RunNext(table: VaultTable, connections: seq<Connection>, faults: seq<nat -> bool>, i: nat,
                 oks: seq<bool>, writes: seq<nat>, ghost left0: nat, ghost left: nat, ghost free: bool)
    returns (oks': seq<bool>, writes': seq<nat>, ghost left': nat)
    requires table.Valid() && DistinctIds(connections) && Standing(table.rows, connections, left, free)
    requires i < |faults| && Answers(oks, writes, faults[..i], left0, left, free)
    modifies table
    ensures table.Valid() && Standing(table.rows, connections, left', free)
    ensures Answers(oks', writes', faults[..i + 1], left0, left', free)
  {
    var ok, written := RunOnce(table, connections, faults[i], left, free);
    AnswersNext(oks, writes, faults, i, left0, left, free, ok, written);
    oks', writes', left' := oks + [ok], writes + [written], left - written;
  }

  method RunEach(table: VaultTable, connections: seq<Connection>, faults: seq<nat -> bool>, ghost left0: nat,
                 ghost free: bool)
    returns (oks: seq<bool>, writes: seq<nat>, ghost left: nat)
    requires table.Valid() && DistinctIds(connections) && Standing(table.rows, connections, left0, free)
    modifies table
    ensures table.Valid() && Standing(table.rows, connections, left, free)
      && Answers(oks, writes, faults, left0, left, free)
  {
    oks, writes, left := [], [], left0;
    for i := 0 to |faults|
      invariant table.Valid() && Standing(table.rows, connections, left, free)
      invariant Answers(oks, writes, faults[..i], left0, left, free)
    {
      oks, writes, left := RunNext(table, connections, faults, i, oks, writes, left0, left, free);
    }
    assert faults[..|faults|] == faults;
  }

  /** Any number of runs, each cut off by its own faults. All of them together write
      as much as the mismatch gets smaller; once one has succeeded every later one
      succeeds without writing. If a turn blocks in the rows they start from, none of
      them ever succeeds; otherwise each of them fails only by a fault. */
  method RunMany(table: VaultTable, connections: seq<Connection>, faults: seq<nat -> bool>)
    returns (oks: seq<bool>, writes: seq<nat>)
    requires table.Valid() && DistinctIds(connections)
    modifies table
    ensures table.Valid() && |oks| == |writes| == |faults|
    ensures |Mismatched(table.rows, LiveRefs(connections))| + Total(writes)
      == |Mismatched(old(table.rows), LiveRefs(connections))|
    ensures (exists k :: 0 <= k < |faults| && oks[k]) ==> Mismatched(table.rows, LiveRefs(connections)) == {}
    ensures forall j, k :: 0 <= j < k < |faults| && oks[j] ==> oks[k] && writes[k] == 0
    ensures !Unblocked(old(table.rows), connections) ==> forall k :: 0 <= k < |faults| ==> !oks[k]
    ensures Unblocked(old(table.rows), connections) ==> forall k :: 0 <= k < |faults| && !oks[k] ==>
      faults[k](writes[k])
  {
    ghost var left0 := |Mismatched(table.rows, LiveRefs(connections))|;
    ghost var left;
    oks, writes, left := RunEach(table, connections, faults, left0, Unblocked(table.rows, connections));
  }

  /** After a run that succeeded, the next one over the same connections succeeds
      without writing, whatever would have failed. */
  method RunTwice(table: VaultTable, connections: seq<Connection>, faults: nat -> bool, later: nat -> bool)
    returns (first: bool, second: bool, writes: nat, ghost between: map<nat, Credential>)
    requires table.Valid() && DistinctIds(connections)
    modifies table
    ensures table.Valid()
    ensures first <==> Mismatched(between, LiveRefs(connections)) == {}
    ensures first ==> second && writes == 0 && table.rows == between
  {
    var written;
    first, written := Run(table, connections, faults);
    between := table.rows;
    second, writes := Run(table, connections, later);
  }

  // ----- What a run means -----

  /** No mismatch is exactly: one active row for every live allowlisted
      connection, and an active row for nobody else. */
  lemma NoMismatch(rows: map<nat, Credential>, connections: seq<Connection>)
    requires Legal(rows)
    ensures Mismatched(rows, LiveRefs(connections)) == {} <==>
      && (forall ref :: ref in LiveRefs(connections) ==> exists id :: RowFor(rows, ref, id) && rows[id].active)
      && (forall id :: id in rows && rows[id].owner.Some? && rows[id].active ==>
        rows[id].owner.value.ref in LiveRefs(connections))
    ensures forall ref, i, j :: RowFor(rows, ref, i) && RowFor(rows, ref, j) ==> i == j
  {
    forall ref, i, j | RowFor(rows, ref, i) && RowFor(rows, ref, j) ensures i == j {
      assert SharesOwner(rows, i, j);
    }
    var live := LiveRefs(connections);
    if Mismatched(rows, live) == {} {
      assert ActiveRefs(rows) == live by {
        assert live - ActiveRefs(rows) == {} && ActiveRefs(rows) - live == {};
      }
      forall ref | ref in live ensures exists id :: RowFor(rows, ref, id) && rows[id].active {
        var id :| id in rows && rows[id].owner.Some? && rows[id].active && rows[id].owner.value.ref == ref;
        assert RowFor(rows, ref, id);
      }
      forall id | id in rows && rows[id].owner.Some? && rows[id].active ensures rows[id].owner.value.ref in live {
        ActiveRefsHas(rows, id);
      }
    }
    if (forall ref :: ref in live ==> exists id :: RowFor(rows, ref, id) && rows[id].active)
       && (forall id :: id in rows && rows[id].owner.Some? && rows[id].active ==> rows[id].owner.value.ref in live) {
      forall ref ensures ref in ActiveRefs(rows) <==> ref in live {
        if ref in live {
          var id :| RowFor(rows, ref, id) && rows[id].active;
          ActiveRefsHas(rows, id);
        }
      }
      assert ActiveRefs(rows) == live;
    }
  }
}
