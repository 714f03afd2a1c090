/**
 Point lookups: a `SELECT` by primary key answers like a scan that keeps the
 rows with that key, exactly when the keys in the rows are read back apart.
 */
module SqlLookups {
  import opened Common
  import opened SqlAst
  import opened SqlCatalog
  import opened SqlExecutor
  import opened SqlJson
  import opened SqlKeys
  import opened SqlRelational
  import opened SqlRefinement
  import opened SqlSimulation
  import opened SqlRuns
  import opened SqlIntegrity

  /** The stored row, read back, holds the primary key `v`. */
  predicate Matches(e: Entry, pk: string, v: Value) {
    var row := Decode(e.row);
    pk in row && row[pk] == v
  }

  /** Scan, keep the rows with primary key `v`, project. */
  function Filtered(scan: seq<Entry>, pk: string, v: Value, cols: seq<ColumnDef>): seq<Row> {
    if scan == [] then []
    else (if Matches(scan[0], pk, v) then [ProjectRow(Decode(scan[0].row), cols)] else [])
         + Filtered(scan[1..], pk, v, cols)
  }

  lemma {:induction false} FilteredNone(scan: seq<Entry>, pk: string, v: Value, cols: seq<ColumnDef>)
    requires forall i :: 0 <= i < |scan| ==> !Matches(scan[i], pk, v)
    ensures Filtered(scan, pk, v, cols) == []
    decreases |scan|
  {
    if scan != [] {
      assert !Matches(scan[0], pk, v);
      FilteredNone(scan[1..], pk, v, cols);
    }
  }

  lemma {:induction false} FilteredOne(scan: seq<Entry>, pk: string, v: Value, cols: seq<ColumnDef>, i: nat)
    requires i < |scan| && forall j :: 0 <= j < |scan| ==> (Matches(scan[j], pk, v) <==> j == i)
    ensures Filtered(scan, pk, v, cols) == [ProjectRow(Decode(scan[i].row), cols)]
    decreases i
  {
    assert Matches(scan[0], pk, v) <==> 0 == i;
    if i == 0 {
      forall j | 0 <= j < |scan[1..]| ensures !Matches(scan[1..][j], pk, v) {
        assert scan[1..][j] == scan[j + 1];
      }
      FilteredNone(scan[1..], pk, v, cols);
    } else {
      forall j | 0 <= j < |scan[1..]| ensures Matches(scan[1..][j], pk, v) <==> j == i - 1 {
        assert scan[1..][j] == scan[j + 1];
      }
      FilteredOne(scan[1..], pk, v, cols, i - 1);
    }
  }

  lemma {:induction false} FilteredSome(scan: seq<Entry>, pk: string, v: Value, cols: seq<ColumnDef>, i: nat)
    requires i < |scan| && Matches(scan[i], pk, v)
    ensures |Filtered(scan, pk, v, cols)| >= 1
    decreases i
  {
    if i > 0 {
      FilteredSome(scan[1..], pk, v, cols, i - 1);
    }
  }

  lemma {:induction false} FilteredTwo(scan: seq<Entry>, pk: string, v: Value, cols: seq<ColumnDef>, i: nat, j: nat)
    requires i < j < |scan| && Matches(scan[i], pk, v) && Matches(scan[j], pk, v)
    ensures |Filtered(scan, pk, v, cols)| >= 2
    decreases i
  {
    if i > 0 {
      FilteredTwo(scan[1..], pk, v, cols, i - 1, j - 1);
    } else {
      FilteredSome(scan[1..], pk, v, cols, j - 1);
    }
  }

  /** Every row the filter keeps shows `v` as its primary key. */
  lemma {:induction false} FilteredShows(scan: seq<Entry>, pk: string, v: Value, cols: seq<ColumnDef>, i: nat)
    requires i < |Filtered(scan, pk, v, cols)| && pk in Names(cols)
    ensures pk in Filtered(scan, pk, v, cols)[i] && Filtered(scan, pk, v, cols)[i][pk] == v
    decreases |scan|
  {
    if !Matches(scan[0], pk, v) {
      FilteredShows(scan[1..], pk, v, cols, i);
    } else if i > 0 {
      FilteredShows(scan[1..], pk, v, cols, i - 1);
    }
  }

  // ---------------------------------------------------------------- against the table

  /** The row of `w`, read back, shows the primary key `v`. */
  predicate ShowsKey(table: Table, w: Value, v: Value)
    requires w in table.rows
  {
    var row := table.rows[w];
    table.def.primaryKey in row && AsRead(row[table.def.primaryKey]) == v
  }

  /** The row of `v` shows `v`, and no other row does. */
  predicate ReadsApart(table: Table, v: Value) {
    forall w | w in table.rows :: ShowsKey(table, w, v) <==> w == v
  }

  lemma {:induction false} MatchesKey(e: Entry, t: string, w: Value, table: Table, v: Value)
    requires HoldsRow(e, t, w, table.rows)
    ensures Matches(e, table.def.primaryKey, v) <==> ShowsKey(table, w, v)
  {
    assert Decode(e.row) == Decode(table.rows[w]);
  }

  /** The scan lists the rows of the table, `order` giving their keys. */
  ghost predicate Enumerates(t: string, table: Table, scan: seq<Entry>, order: seq<Value>) {
    && |order| == |scan|
    && (forall i :: 0 <= i < |scan| ==> HoldsRow(scan[i], t, order[i], table.rows))
    && (forall i, j :: 0 <= i < j < |order| ==> order[i] != order[j])
    && (forall w :: w in order <==> w in table.rows)
  }

  lemma {:induction false} ScanMatches(t: string, table: Table, scan: seq<Entry>, order: seq<Value>, v: Value)
    requires Enumerates(t, table, scan, order)
    ensures forall i :: 0 <= i < |scan| ==>
              order[i] in table.rows && (Matches(scan[i], table.def.primaryKey, v) <==> ShowsKey(table, order[i], v))
  {
    forall i | 0 <= i < |scan|
      ensures order[i] in table.rows
      ensures Matches(scan[i], table.def.primaryKey, v) <==> ShowsKey(table, order[i], v)
    {
      assert HoldsRow(scan[i], t, order[i], table.rows);
      MatchesKey(scan[i], t, order[i], table, v);
    }
  }

  /** What a lookup of `v` finds in the table. */
  function Looked(table: Table, v: Value, cols: seq<ColumnDef>): seq<Row> {
    if v in table.rows then [ProjectRow(Decode(table.rows[v]), cols)] else []
  }

  lemma {:induction false} FilteredWhenApart(
    t: string, table: Table, scan: seq<Entry>, order: seq<Value>, v: Value, cols: seq<ColumnDef>)
    requires Enumerates(t, table, scan, order) && ReadsApart(table, v)
    ensures Filtered(scan, table.def.primaryKey, v, cols) == Looked(table, v, cols)
  {
    ScanMatches(t, table, scan, order, v);
    if v in table.rows {
      var i :| 0 <= i < |order| && order[i] == v;
      assert HoldsRow(scan[i], t, v, table.rows);
      FilteredOne(scan, table.def.primaryKey, v, cols, i);
    } else {
      FilteredNone(scan, table.def.primaryKey, v, cols);
    }
  }

  /** Another key that is read back as `v` is found by the filter as well. */
  lemma {:induction false} FilteredWhenConfused(
    scan: seq<Entry>, order: seq<Value>, pk: string, v: Value, cols: seq<ColumnDef>, i: nat)
    requires |order| == |scan| && forall j :: 0 <= j < |scan| && order[j] == v ==> Matches(scan[j], pk, v)
    requires i < |scan| && order[i] != v && Matches(scan[i], pk, v)
    ensures |Filtered(scan, pk, v, cols)| >= if v in order then 2 else 1
  {
    FilteredSome(scan, pk, v, cols, i);
    if v in order {
      var j :| 0 <= j < |order| && order[j] == v;
      FilteredTwo(scan, pk, v, cols, if i < j then i else j, if i < j then j else i);
    }
  }

  predicate KeysPresent(table: Table) {
    forall w | w in table.rows :: table.def.primaryKey in table.rows[w]
  }

  /** Otherwise the primary key column alone tells the two answers apart. */
  lemma {:induction false} FilteredWhenNotApart(
    t: string, table: Table, scan: seq<Entry>, order: seq<Value>, v: Value, cols: seq<ColumnDef>)
    requires Enumerates(t, table, scan, order) && !ReadsApart(table, v)
    requires Names(cols) == [table.def.primaryKey] && KeysPresent(table)
    ensures Filtered(scan, table.def.primaryKey, v, cols) != Looked(table, v, cols)
  {
    var pk := table.def.primaryKey;
    ScanMatches(t, table, scan, order, v);
    if v in table.rows && !ShowsKey(table, v, v) {
      var looked := Looked(table, v, cols);
      assert pk in looked[0] && looked[0][pk] == AsRead(table.rows[v][pk]) != v;
      if |Filtered(scan, pk, v, cols)| == 1 {
        FilteredShows(scan, pk, v, cols, 0);
      }
    } else {
      var w :| w in table.rows && !(ShowsKey(table, w, v) <==> w == v);
      var i :| 0 <= i < |order| && order[i] == w;
      FilteredWhenConfused(scan, order, pk, v, cols, i);
    }
  }

  lemma {:induction false} ScanIsExact(st: State, db: Database, t: string, scan: seq<Entry>, order: seq<Value>)
    requires Sim(st, db) && t in db && IsScan(st.entries, t + "/", scan) && |order| == |scan|
    requires forall i :: 0 <= i < |scan| ==> HoldsRow(scan[i], t, order[i], db[t].rows)
    ensures Enumerates(t, db[t], scan, order)
  {
    TableFacts(st, db, t);
    forall w | w in db[t].rows ensures w in order {
      var i := ScanReaches(st.entries, t, scan, w);
      SameKeySameRow(st.tables, db, t, scan[i], order[i], w);
    }
    forall i | 0 <= i < |order| ensures order[i] in db[t].rows {
      assert HoldsRow(scan[i], t, order[i], db[t].rows);
    }
    forall i, j | 0 <= i < j < |order| ensures order[i] != order[j] {
      assert HoldsRow(scan[i], t, order[i], db[t].rows) && HoldsRow(scan[j], t, order[j], db[t].rows);
    }
  }

  lemma {:induction false} FoundIsLooked(st: State, db: Database, t: string, v: Value, cols: seq<ColumnDef>)
    requires Sim(st, db) && t in db && IsKeyOf(db[t].def, v)
    ensures Found(st.entries, KeyFor(t, v), cols) == Looked(db[t], v, cols)
  {
    TableFacts(st, db, t);
    StoredExactly(st, db, t, v);
  }

  /** A literal the key column admits. */
  predicate IsKeyOf(def: TableDef, v: Value) {
    HasColumn(def, def.primaryKey) && Admits(TypeOf(def, def.primaryKey), v)
  }

  /** The lookup and the filtered scan give the same rows, whatever columns are asked for. */
  ghost predicate LookupIsFilter(st: State, def: TableDef, t: string, v: Value, scan: seq<Entry>) {
    forall cols :: Found(st.entries, KeyFor(t, v), cols) == Filtered(scan, def.primaryKey, v, cols)
  }

  lemma {:induction false} ScanInOrder(st: State, db: Database, t: string, scan: seq<Entry>) returns (order: seq<Value>)
    requires Sim(st, db) && t in db && IsScan(st.entries, t + "/", scan)
    ensures Enumerates(t, db[t], scan, order)
  {
    ScannedRows(st, db, t, scan);
    order := ScanOrder(t, db[t].rows, scan);
    ScanIsExact(st, db, t, scan, order);
  }

  lemma {:induction false} LookupWhenApart(
    st: State, db: Database, t: string, v: Value, scan: seq<Entry>, order: seq<Value>)
    requires Sim(st, db) && t in db && IsKeyOf(db[t].def, v)
    requires Enumerates(t, db[t], scan, order) && ReadsApart(db[t], v)
    ensures LookupIsFilter(st, db[t].def, t, v, scan)
  {
    forall cols ensures Found(st.entries, KeyFor(t, v), cols) == Filtered(scan, db[t].def.primaryKey, v, cols) {
      FoundIsLooked(st, db, t, v, cols);
      FilteredWhenApart(t, db[t], scan, order, v, cols);
    }
  }

  lemma {:induction false} ColumnsThatTell(t: string, table: Table, scan: seq<Entry>, order: seq<Value>, v: Value)
    returns (cols: seq<ColumnDef>)
    requires Enumerates(t, table, scan, order) && !ReadsApart(table, v) && KeysPresent(table)
    ensures Filtered(scan, table.def.primaryKey, v, cols) != Looked(table, v, cols)
  {
    cols := [ColumnDef(table.def.primaryKey, TypeInt, true, true)];
    assert Names(cols) == [table.def.primaryKey];
    FilteredWhenNotApart(t, table, scan, order, v, cols);
  }

  lemma {:induction false} ObeysMeansPresent(db: Database, t: string)
    requires Obeys(HasKey, db) && t in db
    ensures KeysPresent(db[t])
  {
    forall w | w in db[t].rows ensures db[t].def.primaryKey in db[t].rows[w] {
      assert RowObeys(HasKey, db[t].def, w, db[t].rows[w]);
    }
  }

  lemma {:induction false} LookupDiffers(
    st: State, db: Database, t: string, v: Value, scan: seq<Entry>, cols: seq<ColumnDef>)
    requires Sim(st, db) && t in db && IsKeyOf(db[t].def, v)
    requires Filtered(scan, db[t].def.primaryKey, v, cols) != Looked(db[t], v, cols)
    ensures !LookupIsFilter(st, db[t].def, t, v, scan)
  {
    FoundIsLooked(st, db, t, v, cols);
  }

  /** A point lookup answers with the rows of a filtered scan exactly when the keys in the rows are read back apart. */
  lemma {:induction false} PointLookupExactly(st: State, db: Database, t: string, v: Value, scan: seq<Entry>)
    requires Sim(st, db) && Obeys(HasKey, db) && t in db && IsKeyOf(db[t].def, v)
    requires IsScan(st.entries, t + "/", scan)
    ensures LookupIsFilter(st, db[t].def, t, v, scan) <==> ReadsApart(db[t], v)
  {
    var order := ScanInOrder(st, db, t, scan);
    if ReadsApart(db[t], v) {
      LookupWhenApart(st, db, t, v, scan, order);
    } else {
      ObeysMeansPresent(db, t);
      var cols := ColumnsThatTell(t, db[t], scan, order, v);
      LookupDiffers(st, db, t, v, scan, cols);
    }
  }

  // ---------------------------------------------------------------- runs

  /** In every run of any texts, for every table and key. */
  lemma {:induction false} PointLookupInRuns(
    texts: seq<string>, states: seq<State>, results: seq<Option<ResultSet>>, n: nat,
    db: Database, t: string, v: Value, scan: seq<Entry>)
    requires IsRun(texts, states, results) && n <= |texts| && db == DbAfter(texts, n)
    requires t in db && IsKeyOf(db[t].def, v) && IsScan(states[n].entries, t + "/", scan)
    ensures LookupIsFilter(states[n], db[t].def, t, v, scan) <==> ReadsApart(db[t], v)
    ensures TextsKeep(HoldsKey, texts, n) && TextsKeep(ReadsBack, texts, n) ==> ReadsApart(db[t], v)
  {
    RunFollows(texts, states, results, n);
    RowsHaveKeys(texts, n);
    PointLookupExactly(states[n], db, t, v, scan);
    if TextsKeep(HoldsKey, texts, n) && TextsKeep(ReadsBack, texts, n) {
      RunObeysExactly(HoldsKey, texts, n);
      RunObeysExactly(ReadsBack, texts, n);
      KeptRowsReadApart(db, t, v);
    }
  }

  /** Rows that hold their own key and are read back as written are told apart by it. */
  lemma {:induction false} KeptRowsReadApart(db: Database, t: string, v: Value)
    requires Obeys(HoldsKey, db) && Obeys(ReadsBack, db) && t in db
    ensures ReadsApart(db[t], v)
  {
    forall w | w in db[t].rows ensures ShowsKey(db[t], w, v) <==> w == v {
      var row := db[t].rows[w];
      assert RowObeys(HoldsKey, db[t].def, w, row) && RowObeys(ReadsBack, db[t].def, w, row);
      assert Decode(row)[db[t].def.primaryKey] == AsRead(w) == w;
    }
  }

  /** A row under the key 9007199254740993 is found by a lookup, but not by the filter. */
  lemma {:induction false} BigKeyIsMissed(table: Table)
    requires IntValue(EXACT + 1) in table.rows
    requires RowObeys(HoldsKey, table.def, IntValue(EXACT + 1), table.rows[IntValue(EXACT + 1)])
    ensures !ReadsApart(table, IntValue(EXACT + 1))
  {
    SmallSurvives(0);
    AsReadExactly(IntValue(EXACT + 1));
    assert !ShowsKey(table, IntValue(EXACT + 1), IntValue(EXACT + 1));
  }
}
