/** How often a label is on the page and in the guard's answer: once for each stored
    row that says so, counted over the stores without the functions that read them. */
module ReferenceCounts {
  import opened Wrappers
  import opened LabelOrder
  import opened ReferenceIndex

  /** The table exists and has every column the store's query reads. */
  predicate Exists(catalog: Catalog, store: Store) {
    store.table in catalog && forall column :: column in store.columns ==> column in catalog[store.table]
  }

  /** The row refers to the credential, in any spelling the codec takes; a NULL reads
      as the empty text. */
  predicate Refers(c: Codec, row: Row, id: Uuid) {
    match row.text
    case Some(text) => c.parse(text) == Some(id)
    case None => c.parse("") == Some(id)
  }

  /** The rows of a store that put a label on the page. */
  ghost function OnPage(c: Codec, catalog: Catalog, store: Store, id: Uuid, caption: string): set<nat> {
    set j: nat | j < |store.rows| && Exists(catalog, store) && !store.sweepFails
      && Refers(c, store.rows[j], id) && store.rows[j].caption == caption
  }

  /** The rows of a store that put a label into the guard's answer: those that spell
      the reference canonically. */
  ghost function InAnswer(c: Codec, catalog: Catalog, store: Store, id: Uuid, caption: string): set<nat> {
    set j: nat | j < |store.rows| && Exists(catalog, store)
      && store.rows[j].text == Some(c.render(id)) && store.rows[j].caption == caption
  }

  /** The hits of each store, with the number of the store. */
  ghost function Places(hits: seq<set<nat>>): set<(nat, nat)> {
    set i: nat, j: nat | i < |hits| && j in hits[i] :: (i, j)
  }

  lemma {:induction false} PlacesOfOne(n: nat, hits: set<nat>) returns (places: set<(nat, nat)>)
    ensures places == set j | j in hits :: (n, j)
    ensures |places| == |hits|
    decreases |hits|
  {
    if hits == {} {
      places := {};
    } else {
      var j :| j in hits;
      var rest := PlacesOfOne(n, hits - {j});
      places := rest + {(n, j)};
      assert hits == (hits - {j}) + {j};
      assert (n, j) !in rest;
    }
  }

  lemma PlacesOfLast(hits: seq<set<nat>>)
    requires hits != []
    ensures |Places(hits)| == |Places(hits[..|hits| - 1])| + |hits[|hits| - 1]|
  {
    var n: nat := |hits| - 1;
    var last := PlacesOfOne(n, hits[n]);
    assert Places(hits) == Places(hits[..n]) + last;
    assert Places(hits[..n]) !! last;
  }

  // ----- One store -----

  ghost function Referring(c: Codec, rows: seq<Row>, id: Uuid, caption: string): set<nat> {
    set j: nat | j < |rows| && Refers(c, rows[j], id) && rows[j].caption == caption
  }

  ghost function Spelling(c: Codec, rows: seq<Row>, id: Uuid, caption: string): set<nat> {
    set j: nat | j < |rows| && rows[j].text == Some(c.render(id)) && rows[j].caption == caption
  }

  lemma ReferringGrows(c: Codec, rows: seq<Row>, id: Uuid, caption: string)
    requires rows != []
    ensures var n := |rows| - 1;
      |Referring(c, rows, id, caption)| == |Referring(c, rows[..n], id, caption)|
        + if Refers(c, rows[n], id) && rows[n].caption == caption then 1 else 0
  {
    var n: nat := |rows| - 1;
    assert Referring(c, rows, id, caption) == Referring(c, rows[..n], id, caption)
      + if Refers(c, rows[n], id) && rows[n].caption == caption then {n} else {};
  }

  lemma SpellingGrows(c: Codec, rows: seq<Row>, id: Uuid, caption: string)
    requires rows != []
    ensures var n := |rows| - 1;
      |Spelling(c, rows, id, caption)| == |Spelling(c, rows[..n], id, caption)|
        + if rows[n].text == Some(c.render(id)) && rows[n].caption == caption then 1 else 0
  {
    var n: nat := |rows| - 1;
    assert Spelling(c, rows, id, caption) == Spelling(c, rows[..n], id, caption)
      + if rows[n].text == Some(c.render(id)) && rows[n].caption == caption then {n} else {};
  }

  lemma LabelsOfRow(c: Codec, row: Row, id: Uuid)
    ensures Labels(RowScanned(c, row), id) == if Refers(c, row, id) then [row.caption] else []
  {
    var read := RowScanned(c, row);
    if read != [] {
      assert read[..0] == [];
    }
  }

  lemma {:induction false} LabelsCount(c: Codec, rows: seq<Row>, id: Uuid, caption: string)
    ensures multiset(Labels(Scanned(c, rows), id))[caption] == |Referring(c, rows, id, caption)|
  {
    if rows == [] {
      assert Referring(c, rows, id, caption) == {};
    } else {
      var n := |rows| - 1;
      LabelsCount(c, rows[..n], id, caption);
      LabelsConcat(Scanned(c, rows[..n]), RowScanned(c, rows[n]), id);
      LabelsOfRow(c, rows[n], id);
      ReferringGrows(c, rows, id, caption);
    }
  }

  lemma AnswerOfRow(c: Codec, row: Row, id: Uuid)
    requires RoundTrips(c)
    ensures AllLabels(Scanned(c, RowNarrowed(c, row, id))) == if row.text == Some(c.render(id)) then [row.caption]
      else []
  {
    assert c.parse(c.render(id)) == Some(id);
    if row.text == Some(c.render(id)) {
      assert [row][..0] == [];
      assert Scanned(c, [row]) == [Reference(id, row.caption)];
      assert [Reference(id, row.caption)][..0] == [];
    }
  }

  lemma {:induction false} AnswersCount(c: Codec, rows: seq<Row>, id: Uuid, caption: string)
    requires RoundTrips(c)
    ensures multiset(AllLabels(Scanned(c, Narrowed(c, rows, id))))[caption] == |Spelling(c, rows, id, caption)|
  {
    if rows == [] {
      assert Spelling(c, rows, id, caption) == {};
    } else {
      var n := |rows| - 1;
      AnswersCount(c, rows[..n], id, caption);
      LastRow(c, rows, id);
      AnswerOfRow(c, rows[n], id);
      SpellingGrows(c, rows, id, caption);
    }
  }

  lemma StoreOnPage(c: Codec, catalog: Catalog, store: Store, id: Uuid, caption: string)
    ensures multiset(Labels(StoreSwept(c, catalog, store), id))[caption] == |OnPage(c, catalog, store, id, caption)|
  {
    assert IsDeployed(catalog, store) <==> Exists(catalog, store);
    if Exists(catalog, store) && !store.sweepFails {
      LabelsCount(c, store.rows, id, caption);
      assert OnPage(c, catalog, store, id, caption) == Referring(c, store.rows, id, caption);
    } else {
      assert OnPage(c, catalog, store, id, caption) == {};
    }
  }

  lemma StoreInAnswer(c: Codec, catalog: Catalog, store: Store, id: Uuid, caption: string)
    requires RoundTrips(c)
    ensures multiset(AllLabels(StorePointing(c, catalog, store, id)))[caption]
      == |InAnswer(c, catalog, store, id, caption)|
  {
    assert IsDeployed(catalog, store) <==> Exists(catalog, store);
    if Exists(catalog, store) {
      AnswersCount(c, store.rows, id, caption);
      assert InAnswer(c, catalog, store, id, caption) == Spelling(c, store.rows, id, caption);
    } else {
      assert InAnswer(c, catalog, store, id, caption) == {};
    }
  }

  // ----- All stores -----

  ghost function PageHits(c: Codec, catalog: Catalog, stores: seq<Store>, id: Uuid, caption: string)
    : (hits: seq<set<nat>>)
  {
    seq(|stores|, i requires 0 <= i < |stores| => OnPage(c, catalog, stores[i], id, caption))
  }

  ghost function AnswerHits(c: Codec, catalog: Catalog, stores: seq<Store>, id: Uuid, caption: string)
    : (hits: seq<set<nat>>)
  {
    seq(|stores|, i requires 0 <= i < |stores| => InAnswer(c, catalog, stores[i], id, caption))
  }

  lemma {:induction false} SweptCount(c: Codec, catalog: Catalog, stores: seq<Store>, id: Uuid, caption: string)
    ensures multiset(Labels(Swept(c, catalog, stores), id))[caption]
      == |Places(PageHits(c, catalog, stores, id, caption))|
  {
    var hits := PageHits(c, catalog, stores, id, caption);
    if stores == [] {
      assert Places(hits) == {};
    } else {
      var n := |stores| - 1;
      SweptCount(c, catalog, stores[..n], id, caption);
      StoreOnPage(c, catalog, stores[n], id, caption);
      LabelsConcat(Swept(c, catalog, stores[..n]), StoreSwept(c, catalog, stores[n]), id);
      assert hits[..n] == PageHits(c, catalog, stores[..n], id, caption);
      PlacesOfLast(hits);
    }
  }

  lemma {:induction false} PointingCount(c: Codec, catalog: Catalog, stores: seq<Store>, id: Uuid, caption: string)
    requires RoundTrips(c)
    ensures multiset(AllLabels(Pointing(c, catalog, stores, id)))[caption]
      == |Places(AnswerHits(c, catalog, stores, id, caption))|
  {
    var hits := AnswerHits(c, catalog, stores, id, caption);
    if stores == [] {
      assert Places(hits) == {};
    } else {
      var n := |stores| - 1;
      PointingCount(c, catalog, stores[..n], id, caption);
      StoreInAnswer(c, catalog, stores[n], id, caption);
      AllLabelsConcat(Pointing(c, catalog, stores[..n], id), StorePointing(c, catalog, stores[n], id));
      assert hits[..n] == AnswerHits(c, catalog, stores[..n], id, caption);
      PlacesOfLast(hits);
    }
  }

  /** On the page a credential shows a label as often as a row of an existing store
      that can be read refers to it under that label. */
  lemma PageCounts(c: Codec, catalog: Catalog, stores: seq<Store>, id: Uuid, caption: string)
    ensures multiset(IndexLabels(c, catalog, stores, id))[caption]
      == |set i: nat, j: nat | i < |stores| && j in OnPage(c, catalog, stores[i], id, caption) :: (i, j)|
  {
    SweptCount(c, catalog, stores, id, caption);
    assert Places(PageHits(c, catalog, stores, id, caption))
      == set i: nat, j: nat | i < |stores| && j in OnPage(c, catalog, stores[i], id, caption) :: (i, j);
  }

  /** The guard names a label as often as a row of an existing store spells the
      credential canonically under that label. */
  lemma AnswerCounts(c: Codec, catalog: Catalog, stores: seq<Store>, id: Uuid, caption: string)
    requires RoundTrips(c)
    ensures multiset(GuardLabels(c, catalog, stores, id))[caption]
      == |set i: nat, j: nat | i < |stores| && j in InAnswer(c, catalog, stores[i], id, caption) :: (i, j)|
  {
    PointingCount(c, catalog, stores, id, caption);
    assert Places(AnswerHits(c, catalog, stores, id, caption))
      == set i: nat, j: nat | i < |stores| && j in InAnswer(c, catalog, stores[i], id, caption) :: (i, j);
  }
}
