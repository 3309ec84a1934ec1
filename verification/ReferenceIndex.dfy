/** Who points at a vault credential, answered twice: one sweep for a page, which
    tolerates failing stores, and one narrowed query for the delete guard, which
    does not. */
module ReferenceIndex {
  import opened Wrappers
  import opened LabelOrder

  type Uuid = nat

  /** Printing gives the canonical text; parsing also accepts other spellings. */
  datatype Codec = Codec(parse: string -> Option<Uuid>, render: Uuid -> string)

  ghost predicate RoundTrips(c: Codec) {
    forall id: Uuid :: c.parse(c.render(id)) == Some(id)
  }

  /** What a store's query yields: the text of the reference, NULL included, and a
      display label. */
  datatype Row = Row(text: Option<string>, caption: string)

  /** A store, the columns its query reads, what it holds, and whether the sweep and
      the narrowed query fail on it. */
  datatype Store = Store(table: string, columns: seq<string>, rows: seq<Row>, sweepFails: bool, narrowedFails: bool)

  /** The database catalog: the columns of each table. */
  type Catalog = map<string, set<string>>

  datatype Reference = Reference(id: Uuid, caption: string)

  predicate IsDeployed(catalog: Catalog, store: Store) {
    store.table in catalog && forall i :: 0 <= i < |store.columns| ==> store.columns[i] in catalog[store.table]
  }

  method Deployed(catalog: Catalog, store: Store) returns (deployed: bool)
    ensures deployed <==> IsDeployed(catalog, store)
  {
    if store.table !in catalog {
      return false;
    }
    for i := 0 to |store.columns|
      invariant forall j :: 0 <= j < i ==> store.columns[j] in catalog[store.table]
    {
      if store.columns[i] !in catalog[store.table] {
        return false;
      }
    }
    return true;
  }

  // ----- Reading -----

  /** The text as the driver hands it over: NULL becomes the empty string. */
  function TextOf(row: Row): string {
    if row.text.Some? then row.text.value else ""
  }

  /** A row whose text is no id is dropped. */
  function RowScanned(c: Codec, row: Row): seq<Reference> {
    match c.parse(TextOf(row))
    case None => []
    case Some(id) => [Reference(id, row.caption)]
  }

  function Scanned(c: Codec, rows: seq<Row>): seq<Reference> {
    if rows == [] then [] else Scanned(c, rows[..|rows| - 1]) + RowScanned(c, rows[|rows| - 1])
  }

  method Scan(c: Codec, rows: seq<Row>) returns (references: seq<Reference>)
    ensures references == Scanned(c, rows)
  {
    references := [];
    for i := 0 to |rows|
      invariant references == Scanned(c, rows[..i])
    {
      assert rows[..i + 1][..i] == rows[..i];
      var id := c.parse(TextOf(rows[i]));
      if id.None? {
        continue;
      }
      references := references + [Reference(id.value, rows[i].caption)];
    }
    assert rows[..|rows|] == rows;
  }

  /** The predicate the narrowed query adds: the text equals the canonical one, which
      NULL never does. */
  function RowNarrowed(c: Codec, row: Row, id: Uuid): seq<Row> {
    if row.text == Some(c.render(id)) then [row] else []
  }

  function Narrowed(c: Codec, rows: seq<Row>, id: Uuid): seq<Row> {
    if rows == [] then [] else Narrowed(c, rows[..|rows| - 1], id) + RowNarrowed(c, rows[|rows| - 1], id)
  }

  function StoreSwept(c: Codec, catalog: Catalog, store: Store): seq<Reference> {
    if IsDeployed(catalog, store) && !store.sweepFails then Scanned(c, store.rows) else []
  }

  function StorePointing(c: Codec, catalog: Catalog, store: Store, id: Uuid): seq<Reference> {
    if IsDeployed(catalog, store) then Scanned(c, Narrowed(c, store.rows, id)) else []
  }

  /** The sweep over every store that is deployed and readable. */
  function Swept(c: Codec, catalog: Catalog, stores: seq<Store>): seq<Reference> {
    if stores == [] then []
    else
      Swept(c, catalog, stores[..|stores| - 1]) + StoreSwept(c, catalog, stores[|stores| - 1])
  }

  method ReferencesByCredential(c: Codec, catalog: Catalog, stores: seq<Store>) returns (references: seq<Reference>)
    ensures references == Swept(c, catalog, stores)
  {
    references := [];
    for i := 0 to |stores|
      invariant references == Swept(c, catalog, stores[..i])
    {
      assert stores[..i + 1][..i] == stores[..i];
      var deployed := Deployed(catalog, stores[i]);
      if !deployed {
        continue;
      }
      if stores[i].sweepFails {
        continue;
      }
      var rows := Scan(c, stores[i].rows);
      references := references + rows;
    }
    assert stores[..|stores|] == stores;
  }

  /** The deployed stores the narrowed query fails on. */
  predicate SomeNarrowedFails(catalog: Catalog, stores: seq<Store>) {
    exists i :: 0 <= i < |stores| && IsDeployed(catalog, stores[i]) && stores[i].narrowedFails
  }

  function Pointing(c: Codec, catalog: Catalog, stores: seq<Store>, id: Uuid): seq<Reference> {
    if stores == [] then []
    else
      Pointing(c, catalog, stores[..|stores| - 1], id) + StorePointing(c, catalog, stores[|stores| - 1], id)
  }

  method ReferencesForCredential(c: Codec, catalog: Catalog, stores: seq<Store>, id: Uuid)
    returns (result: Result<seq<Reference>, string>)
    ensures result.Failure? <==> SomeNarrowedFails(catalog, stores)
    ensures result.Success? ==> result.value == Pointing(c, catalog, stores, id)
  {
    var references := [];
    for i := 0 to |stores|
      invariant references == Pointing(c, catalog, stores[..i], id)
      invariant forall j :: 0 <= j < i ==> !(IsDeployed(catalog, stores[j]) && stores[j].narrowedFails)
    {
      assert stores[..i + 1][..i] == stores[..i];
      var deployed := Deployed(catalog, stores[i]);
      if !deployed {
        continue;
      }
      if stores[i].narrowedFails {
        return Failure(stores[i].table);
      }
      var rows := Scan(c, Narrowed(c, stores[i].rows, id));
      references := references + rows;
    }
    assert stores[..|stores|] == stores;
    return Success(references);
  }

  // ----- The index and the guard -----

  /** The labels of one credential, in the order they were read. */
  function Labels(references: seq<Reference>, id: Uuid): seq<string> {
    if references == [] then []
    else
      var last := references[|references| - 1];
      Labels(references[..|references| - 1], id) + if last.id == id then [last.caption] else []
  }

  type Index = map<Uuid, seq<string>>

  function For(index: Index, id: Uuid): seq<string> {
    if id in index then index[id] else []
  }

  function IndexLabels(c: Codec, catalog: Catalog, stores: seq<Store>, id: Uuid): seq<string> {
    Sort(Labels(Swept(c, catalog, stores), id))
  }

  method Group(rows: seq<Reference>) returns (index: Index)
    ensures forall id :: For(index, id) == Labels(rows, id)
  {
    index := map[];
    for i := 0 to |rows|
      invariant forall id :: For(index, id) == Labels(rows[..i], id)
    {
      assert rows[..i + 1][..i] == rows[..i];
      var row := rows[i];
      index := index[row.id := For(index, row.id) + [row.caption]];
    }
    assert rows[..|rows|] == rows;
  }

  method SortEach(index: Index) returns (sorted: Index)
    ensures forall id :: For(sorted, id) == Sort(For(index, id))
  {
    sorted := index;
    var todo := index.Keys;
    while todo != {}
      invariant sorted.Keys == index.Keys && todo <= index.Keys
      invariant forall id :: id in todo ==> sorted[id] == index[id]
      invariant forall id :: id in index.Keys - todo ==> sorted[id] == Sort(index[id])
      decreases |todo|
    {
      var id :| id in todo;
      todo := todo - {id};
      sorted := sorted[id := Sort(sorted[id])];
    }
  }

  method Build(c: Codec, catalog: Catalog, stores: seq<Store>) returns (index: Index)
    ensures forall id :: For(index, id) == IndexLabels(c, catalog, stores, id)
    ensures forall id ::
      && Sorted(For(index, id))
      && multiset(For(index, id)) == multiset(Labels(Swept(c, catalog, stores), id))
  {
    var rows := ReferencesByCredential(c, catalog, stores);
    var grouped := Group(rows);
    index := SortEach(grouped);
    forall id: Uuid ensures For(index, id) == Sort(Labels(rows, id)) {
      assert For(grouped, id) == Labels(rows, id);
    }
    forall id: Uuid
      ensures Sorted(For(index, id)) && multiset(For(index, id)) == multiset(Labels(Swept(c, catalog, stores), id))
    {
      SortIsTheArrangement(Labels(rows, id), For(index, id));
    }
  }

  function AllLabels(references: seq<Reference>): seq<string> {
    if references == [] then []
    else AllLabels(references[..|references| - 1]) + [references[|references| - 1].caption]
  }

  function GuardLabels(c: Codec, catalog: Catalog, stores: seq<Store>, id: Uuid): seq<string> {
    Sort(AllLabels(Pointing(c, catalog, stores, id)))
  }

  method ConsumersOf(c: Codec, catalog: Catalog, stores: seq<Store>, id: Uuid)
    returns (result: Result<seq<string>, string>)
    ensures result.Failure? <==> SomeNarrowedFails(catalog, stores)
    ensures result.Success? ==> result.value == GuardLabels(c, catalog, stores, id)
    ensures result.Success? ==>
      Sorted(result.value) && multiset(result.value) == multiset(AllLabels(Pointing(c, catalog, stores, id)))
  {
    var read := ReferencesForCredential(c, catalog, stores, id);
    if read.Failure? {
      return Failure(read.error);
    }
    var rows := read.value;
    var labels := [];
    for i := 0 to |rows|
      invariant labels == AllLabels(rows[..i])
    {
      assert rows[..i + 1][..i] == rows[..i];
      labels := labels + [rows[i].caption];
    }
    assert rows[..|rows|] == rows;
    SortIsTheArrangement(labels, Sort(labels));
    return Success(Sort(labels));
  }

  // ----- How they compare -----

  lemma {:induction false} LabelsConcat(a: seq<Reference>, b: seq<Reference>, id: Uuid)
    ensures Labels(a + b, id) == Labels(a, id) + Labels(b, id)
    decreases |b|
  {
    if b == [] {
      assert a + b == a;
    } else {
      var front := b[..|b| - 1];
      LabelsConcat(a, front, id);
      assert (a + b)[..|a + b| - 1] == a + front;
    }
  }

  lemma {:induction false} AllLabelsConcat(a: seq<Reference>, b: seq<Reference>)
    ensures AllLabels(a + b) == AllLabels(a) + AllLabels(b)
    decreases |b|
  {
    if b == [] {
      assert a + b == a;
    } else {
      var front := b[..|b| - 1];
      AllLabelsConcat(a, front);
      assert (a + b)[..|a + b| - 1] == a + front;
    }
  }

  /** A stored reference to the credential is spelled canonically. */
  predicate CanonicalFor(c: Codec, row: Row, id: Uuid) {
    c.parse(TextOf(row)) == Some(id) ==> row.text == Some(c.render(id))
  }

  /** Sub-list by multiplicity, equal exactly under the condition. */
  ghost predicate Compares(narrow: seq<string>, wide: seq<string>, canonical: bool) {
    && multiset(narrow) <= multiset(wide)
    && (if canonical then narrow == wide else |narrow| < |wide|)
  }

  lemma ComparesConcat(n1: seq<string>, w1: seq<string>, c1: bool, n2: seq<string>, w2: seq<string>, c2: bool)
    requires Compares(n1, w1, c1) && Compares(n2, w2, c2)
    ensures Compares(n1 + n2, w1 + w2, c1 && c2)
  {
  }

  predicate RowsCanonical(c: Codec, rows: seq<Row>, id: Uuid) {
    forall i :: 0 <= i < |rows| ==> CanonicalFor(c, rows[i], id)
  }

  lemma RowCompares(c: Codec, row: Row, id: Uuid)
    requires RoundTrips(c)
    ensures Compares(AllLabels(Scanned(c, RowNarrowed(c, row, id))), Labels(RowScanned(c, row), id),
      CanonicalFor(c, row, id))
  {
    assert c.parse(c.render(id)) == Some(id);
    if row.text == Some(c.render(id)) {
      assert [row][..0] == [];
      assert Scanned(c, [row]) == [Reference(id, row.caption)];
    }
  }

  lemma RowsCanonicalSplits(c: Codec, rows: seq<Row>, id: Uuid)
    requires rows != []
    ensures RowsCanonical(c, rows, id)
      <==> RowsCanonical(c, rows[..|rows| - 1], id) && CanonicalFor(c, rows[|rows| - 1], id)
  {
  }

  lemma {:induction false} ScannedConcat(c: Codec, a: seq<Row>, b: seq<Row>)
    ensures Scanned(c, a + b) == Scanned(c, a) + Scanned(c, b)
    decreases |b|
  {
    if b == [] {
      assert a + b == a;
    } else {
      var front := b[..|b| - 1];
      ScannedConcat(c, a, front);
      assert (a + b)[..|a + b| - 1] == a + front;
    }
  }

  /** Unfolding the last row on both sides. */
  lemma LastRow(c: Codec, rows: seq<Row>, id: Uuid)
    requires rows != []
    ensures var front, row := rows[..|rows| - 1], rows[|rows| - 1];
      && AllLabels(Scanned(c, Narrowed(c, rows, id)))
        == AllLabels(Scanned(c, Narrowed(c, front, id))) + AllLabels(Scanned(c, RowNarrowed(c, row, id)))
      && Labels(Scanned(c, rows), id) == Labels(Scanned(c, front), id) + Labels(RowScanned(c, row), id)
  {
    var front, row := rows[..|rows| - 1], rows[|rows| - 1];
    ScannedConcat(c, Narrowed(c, front, id), RowNarrowed(c, row, id));
    AllLabelsConcat(Scanned(c, Narrowed(c, front, id)), Scanned(c, RowNarrowed(c, row, id)));
    LabelsConcat(Scanned(c, front), RowScanned(c, row), id);
  }

  lemma {:induction false} RowsCompare(c: Codec, rows: seq<Row>, id: Uuid)
    requires RoundTrips(c)
    ensures Compares(AllLabels(Scanned(c, Narrowed(c, rows, id))), Labels(Scanned(c, rows), id),
      RowsCanonical(c, rows, id))
  {
    if rows != [] {
      var front, row := rows[..|rows| - 1], rows[|rows| - 1];
      RowsCompare(c, front, id);
      RowCompares(c, row, id);
      LastRow(c, rows, id);
      RowsCanonicalSplits(c, rows, id);
      ComparesConcat(
        AllLabels(Scanned(c, Narrowed(c, front, id))), Labels(Scanned(c, front), id), RowsCanonical(c, front, id),
        AllLabels(Scanned(c, RowNarrowed(c, row, id))), Labels(RowScanned(c, row), id), CanonicalFor(c, row, id));
    }
  }

  predicate StoreCanonical(c: Codec, catalog: Catalog, store: Store, id: Uuid) {
    IsDeployed(catalog, store) ==> RowsCanonical(c, store.rows, id)
  }

  predicate AllCanonical(c: Codec, catalog: Catalog, stores: seq<Store>, id: Uuid) {
    forall i :: 0 <= i < |stores| ==> StoreCanonical(c, catalog, stores[i], id)
  }

  predicate ReadsCleanly(catalog: Catalog, store: Store) {
    IsDeployed(catalog, store) ==> !store.sweepFails && !store.narrowedFails
  }

  lemma StoreCompares(c: Codec, catalog: Catalog, store: Store, id: Uuid)
    requires RoundTrips(c) && ReadsCleanly(catalog, store)
    ensures Compares(AllLabels(StorePointing(c, catalog, store, id)), Labels(StoreSwept(c, catalog, store), id),
                     StoreCanonical(c, catalog, store, id))
  {
    if IsDeployed(catalog, store) {
      RowsCompare(c, store.rows, id);
    }
  }

  lemma CanonicalSplits(c: Codec, catalog: Catalog, stores: seq<Store>, id: Uuid)
    requires stores != []
    ensures AllCanonical(c, catalog, stores, id)
      <==> AllCanonical(c, catalog, stores[..|stores| - 1], id) && StoreCanonical(c, catalog, stores[|stores| - 1], id)
  {
  }

  lemma {:induction false} StoresCompare(c: Codec, catalog: Catalog, stores: seq<Store>, id: Uuid)
    requires RoundTrips(c)
    requires forall i :: 0 <= i < |stores| ==> ReadsCleanly(catalog, stores[i])
    ensures Compares(AllLabels(Pointing(c, catalog, stores, id)), Labels(Swept(c, catalog, stores), id),
                     AllCanonical(c, catalog, stores, id))
  {
    if stores != [] {
      var front, store := stores[..|stores| - 1], stores[|stores| - 1];
      StoresCompare(c, catalog, front, id);
      StoreCompares(c, catalog, store, id);
      CanonicalSplits(c, catalog, stores, id);
      AllLabelsConcat(Pointing(c, catalog, front, id), StorePointing(c, catalog, store, id));
      LabelsConcat(Swept(c, catalog, front), StoreSwept(c, catalog, store), id);
      ComparesConcat(
        AllLabels(Pointing(c, catalog, front, id)), Labels(Swept(c, catalog, front), id),
          AllCanonical(c, catalog, front, id),
        AllLabels(StorePointing(c, catalog, store, id)), Labels(StoreSwept(c, catalog, store), id),
        StoreCanonical(c, catalog, store, id));
    }
  }

  /** When every deployed store reads cleanly, the guard names no consumer the page
      does not name, as often or less; and the two agree exactly when every stored
      reference to the credential is canonical text. */
  lemma GuardWithinIndex(c: Codec, catalog: Catalog, stores: seq<Store>, id: Uuid)
    requires RoundTrips(c)
    requires forall i :: 0 <= i < |stores| ==> ReadsCleanly(catalog, stores[i])
    ensures multiset(GuardLabels(c, catalog, stores, id)) <= multiset(IndexLabels(c, catalog, stores, id))
    ensures GuardLabels(c, catalog, stores, id) == IndexLabels(c, catalog, stores, id)
      <==> AllCanonical(c, catalog, stores, id)
  {
    StoresCompare(c, catalog, stores, id);
  }

  function Readable(stores: seq<Store>): seq<Store> {
    if stores == [] then []
    else
      var store := stores[|stores| - 1];
      if store.sweepFails then Readable(stores[..|stores| - 1]) else Readable(stores[..|stores| - 1]) + [store]
  }

  lemma {:induction false} SweptIsReadable(c: Codec, catalog: Catalog, stores: seq<Store>)
    ensures Swept(c, catalog, stores) == Swept(c, catalog, Readable(stores))
  {
    if stores != [] {
      var front, store := stores[..|stores| - 1], stores[|stores| - 1];
      SweptIsReadable(c, catalog, front);
      if !store.sweepFails {
        assert (Readable(front) + [store])[..|Readable(front)|] == Readable(front);
      }
    }
  }

  /** What the page shows is what the stores that can be read show: a failing store
      takes away its own labels and no others. */
  lemma IndexDropsFailingStores(c: Codec, catalog: Catalog, stores: seq<Store>, id: Uuid)
    ensures IndexLabels(c, catalog, stores, id) == IndexLabels(c, catalog, Readable(stores), id)
  {
    SweptIsReadable(c, catalog, stores);
  }

  /** The delete a missed spelling lets through: a reference stored in another
      spelling is on the page but not in the guard's answer. */
  lemma OtherSpellingIsMissed(c: Codec, catalog: Catalog, stores: seq<Store>, id: Uuid, i: nat, j: nat)
    requires RoundTrips(c) && i < |stores| && j < |stores[i].rows|
    requires forall k :: 0 <= k < |stores| ==> ReadsCleanly(catalog, stores[k])
    requires IsDeployed(catalog, stores[i])
    requires c.parse(TextOf(stores[i].rows[j])) == Some(id) && stores[i].rows[j].text != Some(c.render(id))
    ensures |GuardLabels(c, catalog, stores, id)| < |IndexLabels(c, catalog, stores, id)|
  {
    StoresCompare(c, catalog, stores, id);
    assert !CanonicalFor(c, stores[i].rows[j], id);
    assert !StoreCanonical(c, catalog, stores[i], id);
  }
}
