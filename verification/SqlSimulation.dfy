/** Statement by statement: a step on keys is the relational step. */
module SqlSimulation {
  import opened Common
  import opened SqlAst
  import opened SqlCatalog
  import opened SqlAnalyzer
  import opened SqlPlanner
  import opened SqlExecutor
  import opened SqlJson
  import opened SqlKeys
  import opened SqlRelational
  import opened SqlRefinement

  function RowsOf(db: Database, table: string): map<Value, Row> {
    if table in db then db[table].rows else map[]
  }

  /** An error leaves everything as it was; otherwise the states still match and the result is the answer. */
  ghost predicate Agrees(m: Option<Effect>, st: State, rows: map<Value, Row>, after: State, r: Option<ResultSet>) {
    match m
    case None => after == st && r.None?
    case Some(e) => r.Some? && Sim(after, e.db) && Answers(r.value, e.answer, rows)
  }

  ghost predicate PlanAgrees(
    m: Option<Effect>, plan: Option<Plan>, st: State, rows: map<Value, Row>, scan: seq<Entry>)
  {
    if plan.None? then m.None? else var (after, r) := Executed(plan.value, st, scan); Agrees(m, st, rows, after, r)
  }

  // ---------------------------------------------------------------- plans

  /** The table a statement is about, as the catalog has it. */
  predicate Known(s: Statement, tables: Tables) {
    && !s.CreateTable? && s.table in tables && tables[s.table].name == s.table
    && HasColumn(tables[s.table], tables[s.table].primaryKey)
  }

  lemma {:induction false} InsertPlanned(s: Statement, tables: Tables)
    requires s.Insert? && Known(s, tables) && WellDefined(tables[s.table])
    ensures var def := tables[s.table];
            PlanFor(s, tables) ==
            if !InsertOk(def, s.columns, s.values) then None
            else Some(InsertPlan(KeyFor(s.table, InsertedKey(def, s.columns, s.values)),
                                 InsertedRow(Targets(def, s.columns), s.values), def))
  {
    InsertAgrees(tables[s.table], s.columns, s.values);
  }

  lemma {:induction false} DeletePlanned(s: Statement, tables: Tables)
    requires s.Delete? && Known(s, tables)
    ensures var def := tables[s.table];
            PlanFor(s, tables) ==
            if s.where.None? || WhereKey(def, s.where.value).None? then None
            else Some(PointDelete(KeyFor(s.table, WhereKey(def, s.where.value).value), def))
  {
    if s.where.Some? {
      WhereAgrees(tables[s.table], s.where.value);
    }
  }

  lemma {:induction false} UpdatePlanned(s: Statement, tables: Tables)
    requires s.Update? && Known(s, tables)
    ensures var def := tables[s.table];
            PlanFor(s, tables) ==
            if s.where.None? || WhereKey(def, s.where.value).None? || ResolveAssignments(def, s.assignments).None?
            then None
            else Some(PointUpdate(KeyFor(s.table, WhereKey(def, s.where.value).value), def,
                                  ResolveAssignments(def, s.assignments).value))
  {
    if s.where.Some? {
      WhereAgrees(tables[s.table], s.where.value);
    }
  }

  // ---------------------------------------------------------------- effects

  lemma {:induction false} TableFacts(st: State, db: Database, t: string)
    requires Sim(st, db) && t in db
    ensures t in st.tables && st.tables[t] == db[t].def && db[t].def.name == t
    ensures WellDefined(db[t].def) && KeysFit(db[t]) && Slashless(t)
  {
    assert TableOk(t, db[t], st.tables);
  }

  lemma {:induction false} StoredExactly(st: State, db: Database, t: string, v: Value)
    requires Sim(st, db) && t in db && KeysFit(db[t]) && Admits(TypeOf(db[t].def, db[t].def.primaryKey), v)
    ensures KeyFor(t, v) in st.entries <==> v in db[t].rows
    ensures v in db[t].rows ==> SameRow(st.entries[KeyFor(t, v)], db[t].rows[v])
  {
    if KeyFor(t, v) in st.entries {
      assert IsRowKey(KeyFor(t, v), db);
      var u, w :| u in db && w in db[u].rows && KeyFor(t, v) == KeyFor(u, w);
      KeysDiffer(st.tables, db, t, v, u, w);
    }
  }

  lemma {:induction false} KeyNameAt(defs: seq<ColumnDef>, i: nat)
    requires i < |defs| && defs[i].primaryKey && forall j :: 0 <= j < i ==> !defs[j].primaryKey
    ensures KeyName(defs) == defs[i].name
    decreases i
  {
    if i > 0 {
      assert !defs[0].primaryKey;
      KeyNameAt(defs[1..], i - 1);
    }
  }

  lemma {:induction false} MarkedIsOnly(defs: seq<ColumnDef>)
    ensures |Marked(defs)| == 1 <==> exists i: nat :: OnlyKey(defs, i)
  {
    if i: nat :| OnlyKey(defs, i) {
      assert Marked(defs) == {i};
    } else if |Marked(defs)| == 1 {
      var i :| i in Marked(defs);
      assert |Marked(defs) - {i}| == 0;
      forall j | 0 <= j < |defs| ensures defs[j].primaryKey <==> j == i {
        assert j in Marked(defs) <==> j in Marked(defs) - {i} || j == i;
      }
      assert OnlyKey(defs, i);
    }
  }

  /** The analyzer's definition is the relational one: distinct names, one marked column, and all columns kept. */
  lemma {:induction false} DefsAgree(table: string, defs: seq<ColumnDef>)
    ensures DefOf(table, defs) == if Definable(defs) then Some(TableDef(table, defs, KeyName(defs))) else None
  {
    MarkedIsOnly(defs);
    if DefOf(table, defs).Some? {
      var i: nat :| OnlyKey(defs, i);
      KeyNameAt(defs, i);
    }
  }

  lemma {:induction false} CreateAgrees(s: Statement, st: State, db: Database, scan: seq<Entry>)
    requires s.CreateTable? && DefOf(s.table, s.defs).Some? && s.table !in db && s.table !in st.tables
    requires var def := DefOf(s.table, s.defs).value;
             && def.name == s.table && Meaning(s, db) == Some(Effect(db[s.table := Table(def, map[])], Created))
             && Sim(st.(tables := st.tables[def.name := def]), db[def.name := Table(def, map[])])
    ensures PlanAgrees(Meaning(s, db), PlanFor(s, st.tables), st, RowsOf(db, s.table), scan)
  {
  }

  lemma {:induction false} CreateRefines(s: Statement, st: State, db: Database, scan: seq<Entry>)
    requires s.CreateTable? && Sim(st, db) && Slashless(s.table)
    ensures PlanAgrees(Meaning(s, db), PlanFor(s, st.tables), st, RowsOf(db, s.table), scan)
  {
    var def := DefOf(s.table, s.defs);
    DefsAgree(s.table, s.defs);
    if def.Some? && s.table !in db {
      SimCreate(st, db, def.value);
      CreateAgrees(s, st, db, scan);
    }
  }

  lemma {:induction false} InsertMeaning(s: Statement, db: Database)
    requires s.Insert? && s.table in db
    ensures var def := db[s.table].def;
            Meaning(s, db) ==
            if !InsertOk(def, s.columns, s.values) then None
            else
              var v, row := InsertedKey(def, s.columns, s.values), InsertedRow(Targets(def, s.columns), s.values);
              Some(Effect(WithRows(db, s.table, db[s.table].rows[v := row]), Changed(1)))
  {
  }

  /** Putting a row changes one row. */
  lemma {:induction false} PutAgrees(
    st: State, db: Database, key: string, row: Row, def: TableDef, rows: map<Value, Row>, scan: seq<Entry>)
    requires Sim(st.(entries := st.entries[key := row]), db)
    ensures PlanAgrees(Some(Effect(db, Changed(1))), Some(InsertPlan(key, row, def)), st, rows, scan)
  {
  }

  lemma {:induction false} InsertAccepted(s: Statement, st: State, db: Database, scan: seq<Entry>)
    requires s.Insert? && Sim(st, db) && s.table in db && InsertOk(db[s.table].def, s.columns, s.values)
    ensures var def := db[s.table].def;
            var v, row := InsertedKey(def, s.columns, s.values), InsertedRow(Targets(def, s.columns), s.values);
            PlanAgrees(Some(Effect(WithRows(db, s.table, db[s.table].rows[v := row]), Changed(1))),
                       Some(InsertPlan(KeyFor(s.table, v), row, def)), st, RowsOf(db, s.table), scan)
  {
    TableFacts(st, db, s.table);
    var def := db[s.table].def;
    InsertedKeyFits(def, s.columns, s.values);
    var v, row := InsertedKey(def, s.columns, s.values), InsertedRow(Targets(def, s.columns), s.values);
    SimPut(st, db, s.table, v, row, row);
    var db' := WithRows(db, s.table, db[s.table].rows[v := row]);
    PutAgrees(st, db', KeyFor(s.table, v), row, def, RowsOf(db, s.table), scan);
  }

  lemma {:induction false} InsertRefines(s: Statement, st: State, db: Database, scan: seq<Entry>)
    requires s.Insert? && Sim(st, db) && s.table in db
    ensures PlanAgrees(Meaning(s, db), PlanFor(s, st.tables), st, RowsOf(db, s.table), scan)
  {
    TableFacts(st, db, s.table);
    InsertPlanned(s, st.tables);
    InsertMeaning(s, db);
    if InsertOk(db[s.table].def, s.columns, s.values) {
      InsertAccepted(s, st, db, scan);
    }
  }

  lemma {:induction false} DeleteMeaning(s: Statement, db: Database)
    requires s.Delete? && s.table in db
    ensures var def := db[s.table].def;
            Meaning(s, db) ==
            if s.where.None? || WhereKey(def, s.where.value).None? then None
            else Some(Effect(WithRows(db, s.table, db[s.table].rows - {WhereKey(def, s.where.value).value}), Deleted))
  {
  }

  lemma {:induction false} RemoveAgrees(
    st: State, db: Database, key: string, def: TableDef, rows: map<Value, Row>, scan: seq<Entry>)
    requires Sim(st.(entries := st.entries - {key}), db)
    ensures PlanAgrees(Some(Effect(db, Deleted)), Some(PointDelete(key, def)), st, rows, scan)
  {
  }

  lemma {:induction false} DeleteRefines(s: Statement, st: State, db: Database, scan: seq<Entry>)
    requires s.Delete? && Sim(st, db) && s.table in db
    ensures PlanAgrees(Meaning(s, db), PlanFor(s, st.tables), st, RowsOf(db, s.table), scan)
  {
    TableFacts(st, db, s.table);
    var def := db[s.table].def;
    DeletePlanned(s, st.tables);
    DeleteMeaning(s, db);
    if s.where.Some? && WhereKey(def, s.where.value).Some? {
      var v := WhereKey(def, s.where.value).value;
      SimRemove(st, db, s.table, v);
      var db' := WithRows(db, s.table, db[s.table].rows - {v});
      RemoveAgrees(st, db', KeyFor(s.table, v), def, RowsOf(db, s.table), scan);
    }
  }

  /** An update of one row, whether the row is there or not. */
  lemma {:induction false} UpdateEffect(
    st: State, db: Database, t: string, v: Value, rs: seq<ResolvedAssignment>, xs: seq<Assignment>)
    requires Sim(st, db) && t in db && KeysFit(db[t]) && Admits(TypeOf(db[t].def, db[t].def.primaryKey), v)
    requires |rs| == |xs|
    requires forall i :: 0 <= i < |xs| ==> rs[i].column.name == xs[i].column && rs[i].value.expr == xs[i].value
    ensures AllLiteralSets(rs) <==> AllLiteral(xs)
    ensures v in db[t].rows <==> KeyFor(t, v) in st.entries
    ensures v in db[t].rows && AllLiteral(xs) ==>
              Sim(st.(entries := st.entries[KeyFor(t, v) := Assigned(Decode(st.entries[KeyFor(t, v)]), rs)]),
                  WithRows(db, t, db[t].rows[v := UpdatedRow(db[t].rows[v], xs)]))
  {
    StoredExactly(st, db, t, v);
    if v in db[t].rows && AllLiteralSets(rs) {
      var stored := st.entries[KeyFor(t, v)];
      UpdateAgrees(stored, db[t].rows[v], rs, xs);
      SimPut(st, db, t, v, Assigned(Decode(stored), rs), UpdatedRow(db[t].rows[v], xs));
    }
  }

  ghost function UpdateOf(db: Database, t: string, v: Value, xs: seq<Assignment>): Option<Effect>
    requires t in db
  {
    if v !in db[t].rows then Some(Effect(db, Changed(0)))
    else if !AllLiteral(xs) then None
    else Some(Effect(WithRows(db, t, db[t].rows[v := UpdatedRow(db[t].rows[v], xs)]), Changed(1)))
  }

  lemma {:induction false} UpdateMeaning(s: Statement, db: Database)
    requires s.Update? && s.table in db
    ensures var def := db[s.table].def;
            Meaning(s, db) ==
            if s.where.None? || WhereKey(def, s.where.value).None? || ResolveAssignments(def, s.assignments).None?
            then None
            else UpdateOf(db, s.table, WhereKey(def, s.where.value).value, s.assignments)
  {
    AssignmentsAgree(db[s.table].def, s.assignments);
  }

  /** An update of a missing row changes nothing. */
  lemma {:induction false} UpdateMissing(
    st: State, db: Database, key: string, def: TableDef, rs: seq<ResolvedAssignment>, rows: map<Value, Row>,
    scan: seq<Entry>)
    requires key !in st.entries && Sim(st, db)
    ensures PlanAgrees(Some(Effect(db, Changed(0))), Some(PointUpdate(key, def, rs)), st, rows, scan)
  {
  }

  lemma {:induction false} UpdateRefused(
    st: State, key: string, def: TableDef, rs: seq<ResolvedAssignment>, rows: map<Value, Row>, scan: seq<Entry>)
    requires key in st.entries && !AllLiteralSets(rs)
    ensures PlanAgrees(None, Some(PointUpdate(key, def, rs)), st, rows, scan)
  {
  }

  lemma {:induction false} UpdateDone(
    st: State, db: Database, key: string, def: TableDef, rs: seq<ResolvedAssignment>, rows: map<Value, Row>,
    scan: seq<Entry>)
    requires key in st.entries && AllLiteralSets(rs)
    requires Sim(st.(entries := st.entries[key := Assigned(Decode(st.entries[key]), rs)]), db)
    ensures PlanAgrees(Some(Effect(db, Changed(1))), Some(PointUpdate(key, def, rs)), st, rows, scan)
  {
  }

  lemma {:induction false} UpdateAccepted(
    st: State, db: Database, t: string, v: Value, rs: seq<ResolvedAssignment>, xs: seq<Assignment>, scan: seq<Entry>)
    requires Sim(st, db) && t in db && KeysFit(db[t]) && Admits(TypeOf(db[t].def, db[t].def.primaryKey), v)
    requires |rs| == |xs|
    requires forall i :: 0 <= i < |xs| ==> rs[i].column.name == xs[i].column && rs[i].value.expr == xs[i].value
    ensures PlanAgrees(UpdateOf(db, t, v, xs), Some(PointUpdate(KeyFor(t, v), db[t].def, rs)), st, RowsOf(db, t), scan)
  {
    UpdateEffect(st, db, t, v, rs, xs);
    if v !in db[t].rows {
      UpdateMissing(st, db, KeyFor(t, v), db[t].def, rs, RowsOf(db, t), scan);
    } else if !AllLiteral(xs) {
      UpdateRefused(st, KeyFor(t, v), db[t].def, rs, RowsOf(db, t), scan);
    } else {
      var db' := WithRows(db, t, db[t].rows[v := UpdatedRow(db[t].rows[v], xs)]);
      UpdateDone(st, db', KeyFor(t, v), db[t].def, rs, RowsOf(db, t), scan);
    }
  }

  lemma {:induction false} UpdateRefines(s: Statement, st: State, db: Database, scan: seq<Entry>)
    requires s.Update? && Sim(st, db) && s.table in db
    ensures PlanAgrees(Meaning(s, db), PlanFor(s, st.tables), st, RowsOf(db, s.table), scan)
  {
    TableFacts(st, db, s.table);
    var def := db[s.table].def;
    UpdatePlanned(s, st.tables);
    UpdateMeaning(s, db);
    AssignmentsAgree(def, s.assignments);
    var rs := ResolveAssignments(def, s.assignments);
    if s.where.Some? && WhereKey(def, s.where.value).Some? && rs.Some? {
      var v := WhereKey(def, s.where.value).value;
      UpdateAccepted(st, db, s.table, v, rs.value, s.assignments, scan);
    }
  }

  // ---------------------------------------------------------------- selecting

  lemma {:induction false} ProjectionAgrees(def: TableDef, projection: seq<Expr>)
    ensures var r := ResolveProjection(def, projection);
            && (r.Some? <==> ProjectionOk(def, projection))
            && (r.Some? ==> Projected(def, r.value) == ProjectionColumns(def, projection))
  {
    var r := ResolveProjection(def, projection);
    if !SelectsAll(projection) {
      assert forall i :: 0 <= i < |projection| ==>
        (ResolveColumnExpr(projection[i], def).Some? <==> projection[i].Column? && HasColumn(def, projection[i].name));
      if r.Some? {
        assert Projected(def, r.value) == ProjectionColumns(def, projection);
      }
    }
  }

  lemma {:induction false} SelectPlanned(s: Statement, tables: Tables)
    requires s.Select? && Known(s, tables)
    ensures var def := tables[s.table];
            var cols := ResolveProjection(def, s.projection);
            PlanFor(s, tables) ==
            if cols.None? || (s.where.Some? && WhereKey(def, s.where.value).None?) then None
            else if s.where.None? then Some(TableScan(s.table + "/", def, cols.value))
            else Some(PointGet(KeyFor(s.table, WhereKey(def, s.where.value).value), def, cols.value))
  {
    if s.where.Some? {
      WhereAgrees(tables[s.table], s.where.value);
    }
  }

  /** The entry is the row of `v`. */
  predicate HoldsRow(e: Entry, t: string, v: Value, rows: map<Value, Row>) {
    v in rows && e.key == KeyFor(t, v) && SameRow(e.row, rows[v])
  }

  ghost predicate HoldsSomeRow(e: Entry, t: string, rows: map<Value, Row>) {
    exists v :: HoldsRow(e, t, v, rows)
  }

  /** Every key under a table's prefix is the key of one of its rows. */
  lemma {:induction false} ScannedRow(tables: Tables, entries: Entries, db: Database, t: string, k: string)
    requires TablesMatch(tables, db) && RowsStored(entries, db) && IsRowKey(k, db)
    requires t in db && k in entries && HasPrefix(k, t + "/")
    ensures HoldsSomeRow(Entry(k, entries[k]), t, db[t].rows)
  {
    var u, w :| u in db && w in db[u].rows && k == KeyFor(u, w);
    assert TableOk(t, db[t], tables) && TableOk(u, db[u], tables);
    PrefixExactly(t, u, KeyText(w));
    assert HoldsRow(Entry(k, entries[k]), t, w, db[t].rows);
  }

  lemma {:induction false} ScannedRows(st: State, db: Database, t: string, scan: seq<Entry>)
    requires Sim(st, db) && t in db && IsScan(st.entries, t + "/", scan)
    ensures forall i :: 0 <= i < |scan| ==> HoldsSomeRow(scan[i], t, db[t].rows)
  {
    forall i | 0 <= i < |scan| ensures HoldsSomeRow(scan[i], t, db[t].rows) {
      assert IsRowKey(scan[i].key, db);
      ScannedRow(st.tables, st.entries, db, t, scan[i].key);
    }
  }

  /** The order of a scan, as primary keys. */
  lemma {:induction false} ScanOrder(t: string, rows: map<Value, Row>, scan: seq<Entry>) returns (order: seq<Value>)
    requires forall i :: 0 <= i < |scan| ==> HoldsSomeRow(scan[i], t, rows)
    ensures |order| == |scan| && forall i :: 0 <= i < |scan| ==> HoldsRow(scan[i], t, order[i], rows)
  {
    order := [];
    while |order| < |scan|
      invariant |order| <= |scan| && forall i :: 0 <= i < |order| ==> HoldsRow(scan[i], t, order[i], rows)
    {
      assert HoldsSomeRow(scan[|order|], t, rows);
      var v :| HoldsRow(scan[|order|], t, v, rows);
      order := order + [v];
    }
  }

  /** A scan meets every row of the table. */
  lemma {:induction false} ScanReaches(entries: Entries, t: string, scan: seq<Entry>, v: Value) returns (i: nat)
    requires IsScan(entries, t + "/", scan) && Slashless(t) && KeyFor(t, v) in entries
    ensures i < |scan| && scan[i].key == KeyFor(t, v)
  {
    PrefixExactly(t, t, KeyText(v));
    i :| 0 <= i < |scan| && scan[i].key == KeyFor(t, v);
  }

  lemma {:induction false} SameKeySameRow(tables: Tables, db: Database, t: string, e: Entry, u: Value, v: Value)
    requires TablesMatch(tables, db) && t in db && v in db[t].rows
    requires HoldsRow(e, t, u, db[t].rows) && e.key == KeyFor(t, v)
    ensures u == v
  {
    assert TableOk(t, db[t], tables);
    KeysDiffer(tables, db, t, v, t, u);
  }

  lemma {:induction false} OrderLists(
    t: string, rows: map<Value, Row>, scan: seq<Entry>, order: seq<Value>, cols: seq<ColumnDef>)
    requires |order| == |scan| && forall i :: 0 <= i < |scan| ==> HoldsRow(scan[i], t, order[i], rows)
    requires forall i, j :: 0 <= i < j < |scan| ==> scan[i].key != scan[j].key
    requires forall v :: v in rows ==> v in order
    ensures Lists(ProjectScan(scan, cols), order, cols, rows.Keys, rows)
  {
    forall i, j | 0 <= i < j < |order| ensures order[i] != order[j] {
      assert HoldsRow(scan[i], t, order[i], rows) && HoldsRow(scan[j], t, order[j], rows);
    }
    forall i | 0 <= i < |order|
      ensures order[i] in rows && ProjectScan(scan, cols)[i] == Shown(rows[order[i]], cols)
    {
      assert HoldsRow(scan[i], t, order[i], rows);
      ProjectedIsShown(rows[order[i]], cols);
    }
  }

  lemma {:induction false} ScanLists(st: State, db: Database, t: string, scan: seq<Entry>, cols: seq<ColumnDef>)
    requires Sim(st, db) && t in db && IsScan(st.entries, t + "/", scan)
    ensures exists order :: Lists(ProjectScan(scan, cols), order, cols, db[t].rows.Keys, db[t].rows)
  {
    TableFacts(st, db, t);
    ScannedRows(st, db, t, scan);
    var order := ScanOrder(t, db[t].rows, scan);
    forall v | v in db[t].rows ensures v in order {
      var i := ScanReaches(st.entries, t, scan, v);
      SameKeySameRow(st.tables, db, t, scan[i], order[i], v);
    }
    OrderLists(t, db[t].rows, scan, order, cols);
  }

  /** The rows a point lookup answers with. */
  function Found(entries: Entries, key: string, cols: seq<ColumnDef>): seq<Row> {
    if key in entries then [ProjectRow(Decode(entries[key]), cols)] else []
  }

  lemma {:induction false} FoundLists(
    entries: Entries, key: string, cols: seq<ColumnDef>, v: Value, rows: map<Value, Row>)
    requires key in entries <==> v in rows
    requires v in rows ==> SameRow(entries[key], rows[v])
    ensures exists order :: Lists(Found(entries, key, cols), order, cols, rows.Keys * {v}, rows)
  {
    var order := if v in rows then [v] else [];
    if v in rows {
      ProjectedIsShown(rows[v], cols);
    }
    assert Lists(Found(entries, key, cols), order, cols, rows.Keys * {v}, rows);
  }

  lemma {:induction false} SelectMeaning(s: Statement, db: Database)
    requires s.Select? && s.table in db
    ensures var def, rows := db[s.table].def, db[s.table].rows;
            Meaning(s, db) ==
            if !ProjectionOk(def, s.projection) || (s.where.Some? && WhereKey(def, s.where.value).None?) then None
            else Some(Effect(db, Selected(ProjectionColumns(def, s.projection),
                                          if s.where.None? then rows.Keys
                                          else rows.Keys * {WhereKey(def, s.where.value).value})))
  {
  }

  lemma {:induction false} ScanExecuted(
    st: State, t: string, def: TableDef, cols: Option<seq<ColumnDef>>, scan: seq<Entry>)
    ensures var columns := Projected(def, cols);
            Executed(TableScan(t + "/", def, cols), st, scan)
            == (st, Some(ResultSet(Names(columns), ProjectScan(scan, columns), 0)))
  {
  }

  lemma {:induction false} ListedAgrees(
    st: State, db: Database, t: string, def: TableDef, cols: Option<seq<ColumnDef>>,
    rows: map<Value, Row>, scan: seq<Entry>)
    requires Sim(st, db)
    requires exists order ::
               Lists(ProjectScan(scan, Projected(def, cols)), order, Projected(def, cols), rows.Keys, rows)
    ensures PlanAgrees(Some(Effect(db, Selected(Projected(def, cols), rows.Keys))),
                       Some(TableScan(t + "/", def, cols)), st, rows, scan)
  {
    ScanExecuted(st, t, def, cols, scan);
  }

  lemma {:induction false} ScanAgrees(
    st: State, db: Database, t: string, cols: Option<seq<ColumnDef>>, scan: seq<Entry>)
    requires Sim(st, db) && t in db && IsScan(st.entries, t + "/", scan)
    ensures PlanAgrees(Some(Effect(db, Selected(Projected(db[t].def, cols), db[t].rows.Keys))),
                       Some(TableScan(t + "/", db[t].def, cols)), st, db[t].rows, scan)
  {
    ScanLists(st, db, t, scan, Projected(db[t].def, cols));
    ListedAgrees(st, db, t, db[t].def, cols, db[t].rows, scan);
  }

  lemma {:induction false} PointExecuted(
    st: State, key: string, def: TableDef, cols: Option<seq<ColumnDef>>, scan: seq<Entry>)
    ensures var columns := Projected(def, cols);
            Executed(PointGet(key, def, cols), st, scan)
            == (st, Some(ResultSet(Names(columns), Found(st.entries, key, columns), 0)))
  {
  }

  lemma {:induction false} FoundAgrees(
    st: State, db: Database, key: string, def: TableDef, cols: Option<seq<ColumnDef>>,
    keys: set<Value>, rows: map<Value, Row>, scan: seq<Entry>)
    requires Sim(st, db)
    requires exists order ::
               Lists(Found(st.entries, key, Projected(def, cols)), order, Projected(def, cols), keys, rows)
    ensures PlanAgrees(Some(Effect(db, Selected(Projected(def, cols), keys))),
                       Some(PointGet(key, def, cols)), st, rows, scan)
  {
    PointExecuted(st, key, def, cols, scan);
  }

  lemma {:induction false} PointAgrees(
    st: State, db: Database, t: string, v: Value, cols: Option<seq<ColumnDef>>, scan: seq<Entry>)
    requires Sim(st, db) && t in db && KeysFit(db[t]) && Admits(TypeOf(db[t].def, db[t].def.primaryKey), v)
    ensures PlanAgrees(Some(Effect(db, Selected(Projected(db[t].def, cols), db[t].rows.Keys * {v}))),
                       Some(PointGet(KeyFor(t, v), db[t].def, cols)), st, db[t].rows, scan)
  {
    StoredExactly(st, db, t, v);
    FoundLists(st.entries, KeyFor(t, v), Projected(db[t].def, cols), v, db[t].rows);
    FoundAgrees(st, db, KeyFor(t, v), db[t].def, cols, db[t].rows.Keys * {v}, db[t].rows, scan);
  }

  lemma {:induction false} SelectRefines(s: Statement, st: State, db: Database, scan: seq<Entry>)
    requires s.Select? && Sim(st, db) && s.table in db && ScanAnswers(s, st, scan)
    ensures PlanAgrees(Meaning(s, db), PlanFor(s, st.tables), st, RowsOf(db, s.table), scan)
  {
    TableFacts(st, db, s.table);
    var def := db[s.table].def;
    SelectPlanned(s, st.tables);
    SelectMeaning(s, db);
    ProjectionAgrees(def, s.projection);
    var cols := ResolveProjection(def, s.projection);
    if cols.Some? {
      if s.where.None? {
        ScanAgrees(st, db, s.table, cols.value, scan);
      } else if WhereKey(def, s.where.value).Some? {
        PointAgrees(st, db, s.table, WhereKey(def, s.where.value).value, cols.value, scan);
      }
    }
  }

  // ---------------------------------------------------------------- any statement

  lemma {:induction false} UnknownTable(s: Statement, st: State, db: Database, scan: seq<Entry>)
    requires !s.CreateTable? && s.table !in db && s.table !in st.tables
    ensures PlanAgrees(Meaning(s, db), PlanFor(s, st.tables), st, RowsOf(db, s.table), scan)
  {
  }

  /** Analysing, planning and executing a statement agrees with its relational meaning. */
  lemma {:induction false} StatementRefines(s: Statement, st: State, db: Database, scan: seq<Entry>)
    requires Sim(st, db) && Slashless(s.table) && ScanAnswers(s, st, scan)
    ensures var (after, r) := Step(s, st, scan); Agrees(Meaning(s, db), st, RowsOf(db, s.table), after, r)
  {
    PlanRefines(s, st, db, scan);
    PlanIsStep(s, st, scan, Meaning(s, db), RowsOf(db, s.table));
  }

  lemma {:induction false} PlanIsStep(
    s: Statement, st: State, scan: seq<Entry>, m: Option<Effect>, rows: map<Value, Row>)
    requires PlanAgrees(m, PlanFor(s, st.tables), st, rows, scan)
    ensures var (after, r) := Step(s, st, scan); Agrees(m, st, rows, after, r)
  {
  }

  lemma {:induction false} PlanRefines(s: Statement, st: State, db: Database, scan: seq<Entry>)
    requires Sim(st, db) && Slashless(s.table) && ScanAnswers(s, st, scan)
    ensures PlanAgrees(Meaning(s, db), PlanFor(s, st.tables), st, RowsOf(db, s.table), scan)
  {
    if s.CreateTable? {
      CreateRefines(s, st, db, scan);
    } else if s.table !in db {
      UnknownTable(s, st, db, scan);
    } else {
      match s
      case Insert(_, _, _) => InsertRefines(s, st, db, scan);
      case Select(_, _, _) => SelectRefines(s, st, db, scan);
      case Update(_, _, _) => UpdateRefines(s, st, db, scan);
      case Delete(_, _) => DeleteRefines(s, st, db, scan);
    }
  }
}
