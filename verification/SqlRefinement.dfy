/**
 Analysing, planning and executing a statement on keys does what the
 relational reading says, for every statement and every pair of matching states.
 */
module SqlRefinement {
  import opened Common
  import opened SqlAst
  import opened SqlCatalog
  import opened SqlAnalyzer
  import opened SqlPlanner
  import opened SqlExecutor
  import opened SqlJson
  import opened SqlKeys
  import opened SqlRelational

  // ---------------------------------------------------------------- running a statement

  /** The plan of a statement, if it has one. */
  ghost function PlanFor(s: Statement, tables: Tables): Option<Plan> {
    var r := Analyzed(s, tables);
    if r.None? then None else Planned(r.value)
  }

  /** `scan` is an answer the store may give to the scan of the statement's plan. */
  ghost predicate ScanAnswers(s: Statement, st: State, scan: seq<Entry>) {
    var p := PlanFor(s, st.tables);
    p.Some? && p.value.TableScan? ==> IsScan(st.entries, p.value.prefix, scan)
  }

  ghost function Step(s: Statement, st: State, scan: seq<Entry>): (State, Option<ResultSet>) {
    var p := PlanFor(s, st.tables);
    if p.None? then (st, None) else Executed(p.value, st, scan)
  }

  /** Analyze, plan and execute, stopping at the first error. */
  method Run(s: Statement, kv: Kv, cat: Catalog) returns (r: Option<ResultSet>, ghost scan: seq<Entry>)
    modifies kv, cat
    ensures ScanAnswers(s, State(old(cat.tables), old(kv.entries)), scan)
    ensures (State(cat.tables, kv.entries), r) == Step(s, State(old(cat.tables), old(kv.entries)), scan)
  {
    scan := [];
    var resolved := Analyze(s, cat);
    if resolved.None? {
      return None, scan;
    }
    var plan := MakePlan(resolved.value);
    if plan.None? {
      return None, scan;
    }
    r, scan := Execute(plan.value, kv, cat);
  }

  // ---------------------------------------------------------------- matching states

  /** The primary keys of the rows are literals of the key column's type. */
  predicate KeysFit(table: Table) {
    && HasColumn(table.def, table.def.primaryKey)
    && forall v | v in table.rows :: Admits(TypeOf(table.def, table.def.primaryKey), v)
  }

  ghost predicate TableOk(name: string, table: Table, tables: Tables) {
    && name in tables && tables[name] == table.def && table.def.name == name && Slashless(name)
    && WellDefined(table.def) && KeysFit(table)
  }

  /** The rows are equal once they have been read back. */
  predicate SameRow(a: Row, b: Row) {
    Decode(a) == Decode(b)
  }

  ghost predicate TablesMatch(tables: Tables, db: Database) {
    && tables.Keys == db.Keys
    && forall t | t in db :: TableOk(t, db[t], tables)
  }

  /** Every row is stored under its key. */
  ghost predicate RowsStored(entries: Entries, db: Database) {
    forall t, v | t in db && v in db[t].rows :: KeyFor(t, v) in entries && SameRow(entries[KeyFor(t, v)], db[t].rows[v])
  }

  ghost predicate IsRowKey(k: string, db: Database) {
    exists t, v :: t in db && v in db[t].rows && k == KeyFor(t, v)
  }

  /** Nothing else is stored. */
  ghost predicate OnlyRows(entries: Entries, db: Database) {
    forall k | k in entries :: IsRowKey(k, db)
  }

  /** The key-value store and the catalog hold exactly the database. */
  ghost predicate Sim(st: State, db: Database) {
    TablesMatch(st.tables, db) && RowsStored(st.entries, db) && OnlyRows(st.entries, db)
  }

  /** The result is the answer: the rows selected, each once, projected. */
  ghost predicate Answers(r: ResultSet, a: Answer, rows: map<Value, Row>) {
    match a
    case Created => r == ResultSet([], [], 0)
    case Changed(count) => r == ResultSet([], [], count)
    case Deleted => r == ResultSet([], [], 1)
    case Selected(columns, keys) =>
      && |r.columns| == |columns| && (forall i :: 0 <= i < |columns| ==> r.columns[i] == columns[i].name)
      && r.affected == 0 && exists order :: Lists(r.rows, order, columns, keys, rows)
  }

  /** The rows of the keys, in this order. */
  ghost predicate Lists(
    rs: seq<Row>, order: seq<Value>, columns: seq<ColumnDef>, keys: set<Value>, rows: map<Value, Row>)
  {
    && |rs| == |order|
    && (forall i, j :: 0 <= i < j < |order| ==> order[i] != order[j])
    && (forall v :: v in order <==> v in keys)
    && (forall i :: 0 <= i < |order| ==>
          order[i] in rows && rs[i] == Shown(rows[order[i]], columns))
  }

  /** Reading a row back and projecting it shows what is to be shown. */
  lemma {:induction false} ProjectedIsShown(row: Row, columns: seq<ColumnDef>)
    ensures ProjectRow(Decode(row), columns) == Shown(row, columns)
  {
    var a, b := ProjectRow(Decode(row), columns), Shown(row, columns);
    forall c | c in a ensures c in b {
      var i :| 0 <= i < |columns| && Names(columns)[i] == c;
      assert columns[i].name == c;
    }
    forall c | c in b ensures c in a && a[c] == b[c] {
      var i :| 0 <= i < |columns| && columns[i].name == c;
      assert Names(columns)[i] == c;
    }
  }

  // ---------------------------------------------------------------- conditions

  /** A condition passes analysis and planning exactly when it is a key of the table. */
  lemma {:induction false} WhereAgrees(def: TableDef, e: Expr)
    requires HasColumn(def, def.primaryKey)
    ensures var w := ResolveWhere(e, def);
            && (w.Some? ==> w.value.op == OpEq)
            && (WhereKey(def, e).Some? <==> w.Some? && KeyOf(def, w.value.value).Some?)
            && (WhereKey(def, e).Some? ==>
                  KeyOf(def, w.value.value).value == KeyFor(def.name, WhereKey(def, e).value)
                  && Admits(TypeOf(def, def.primaryKey), WhereKey(def, e).value))
  {
  }

  // ---------------------------------------------------------------- inserted rows

  lemma {:induction false} RowOfAt(cols: seq<ColumnDef>, values: seq<TypedExpr>, c: string)
    requires |cols| == |values| && AllLiterals(values)
    ensures c in RowOf(cols, values) <==> c in Names(cols)
    ensures c in Names(cols) ==> RowOf(cols, values)[c] == values[LastAt(Names(cols), c)].expr.value
    decreases |cols|
  {
    if cols != [] {
      var n := |cols| - 1;
      RowOfAt(cols[..n], values[..n], c);
      assert Names(cols)[..n] == Names(cols[..n]);
      assert c in Names(cols) <==> c in Names(cols)[..n] || c == Names(cols)[n];
    }
  }

  lemma {:induction false} PkValueIsFirst(table: TableDef, cols: seq<ColumnDef>, values: seq<TypedExpr>)
    requires |cols| == |values|
    ensures PkValue(table, cols, values).Some? <==> table.primaryKey in Names(cols)
    ensures table.primaryKey in Names(cols) ==>
              PkValue(table, cols, values) == Some(values[FirstAt(Names(cols), table.primaryKey)])
  {
    var i := if table.primaryKey in Names(cols) then FirstAt(Names(cols), table.primaryKey) else |cols|;
    forall j | 0 <= j < i ensures cols[j].name != table.primaryKey {
      assert Names(cols)[j] == cols[j].name;
    }
    PkValueAt(table, cols, values, i);
  }

  lemma {:induction false} OwnColumn(def: TableDef, i: nat)
    requires DistinctNames(def.columns) && i < |def.columns|
    ensures FindColumn(def, def.columns[i].name) == Some(def.columns[i])
  {
    FirstNamedAt(def.columns, i);
  }

  /** The columns of an `INSERT` are the columns it names. */
  lemma {:induction false} TargetColumns(def: TableDef, names: seq<string>)
    requires DistinctNames(def.columns)
    ensures var cols, targets := InsertColumns(def, names), Targets(def, names);
            && (cols.Some? <==> forall i :: 0 <= i < |targets| ==> HasColumn(def, targets[i]))
            && (cols.Some? ==>
                  && Names(cols.value) == targets
                  && forall i :: 0 <= i < |targets| ==> FindColumn(def, targets[i]) == Some(cols.value[i]))
  {
    if names == [] {
      forall i | 0 <= i < |def.columns| ensures FindColumn(def, def.columns[i].name) == Some(def.columns[i]) {
        OwnColumn(def, i);
      }
    } else {
      var targets := Targets(def, names);
      assert targets == names;
      if forall i :: 0 <= i < |targets| ==> HasColumn(def, targets[i]) {
        forall i | 0 <= i < |names| ensures FindColumn(def, names[i]).Some? {
          assert HasColumn(def, targets[i]);
        }
        assert NamedColumns(def, names).Some?;
      }
    }
  }

  lemma {:induction false} ResolveAsLiteral(e: Expr, def: TableDef, typ: ColumnType)
    ensures ResolveAs(e, def, typ).Some? ==> ResolveAs(e, def, typ).value.expr == e
    ensures ResolveAs(e, def, typ).Some? && e.Literal? <==> IsLiteralOf(e, typ)
  {
  }

  lemma {:induction false} TypedLiterals(def: TableDef, cols: seq<ColumnDef>, values: seq<Expr>)
    ensures var typed := TypedValues(def, cols, values);
            && (typed.Some? && AllLiterals(typed.value)
                <==> |cols| == |values| && forall i :: 0 <= i < |cols| ==> IsLiteralOf(values[i], cols[i].typ))
            && (typed.Some? ==> |typed.value| == |cols| == |values|
                                && forall i :: 0 <= i < |cols| ==> typed.value[i].expr == values[i])
  {
    if |cols| == |values| {
      forall i | 0 <= i < |cols|
        ensures ResolveAs(values[i], def, cols[i].typ).Some? ==>
                  ResolveAs(values[i], def, cols[i].typ).value.expr == values[i]
        ensures ResolveAs(values[i], def, cols[i].typ).Some? && values[i].Literal?
                <==> IsLiteralOf(values[i], cols[i].typ)
      {
        ResolveAsLiteral(values[i], def, cols[i].typ);
      }
      var typed := TypedValues(def, cols, values);
      if typed.Some? && AllLiterals(typed.value) {
        forall i | 0 <= i < |cols| ensures IsLiteralOf(values[i], cols[i].typ) {
          assert typed.value[i].expr.Literal?;
        }
      }
    }
  }

  lemma {:induction false} BuiltRow(
    cols: seq<ColumnDef>, typed: seq<TypedExpr>, targets: seq<string>, values: seq<Expr>)
    requires |cols| == |typed| == |values| && AllLiterals(typed) && Names(cols) == targets
    requires forall i :: 0 <= i < |values| ==> typed[i].expr == values[i]
    ensures RowOf(cols, typed) == InsertedRow(targets, values)
  {
    forall c: string
      ensures c in RowOf(cols, typed) <==> c in targets
      ensures c in targets ==> RowOf(cols, typed)[c] == values[LastAt(targets, c)].value
    {
      RowOfAt(cols, typed, c);
    }
  }

  /** The resolved `INSERT` has the columns and values of the statement. */
  lemma {:induction false} InsertAnalyzed(def: TableDef, names: seq<string>, values: seq<Expr>)
    requires DistinctNames(def.columns)
    ensures var r, targets := AnalyzeInsert(def, names, values), Targets(def, names);
            && (r.Some? ==>
                  && r.value.ResolvedInsert? && r.value.table == def && Names(r.value.cols) == targets
                  && |r.value.cols| == |r.value.values| == |values|
                  && forall i :: 0 <= i < |values| ==> r.value.values[i].expr == values[i])
            && (r.Some? && AllLiterals(r.value.values) <==>
                  && |values| == |targets|
                  && forall i :: 0 <= i < |targets| ==>
                       HasColumn(def, targets[i]) && IsLiteralOf(values[i], TypeOf(def, targets[i])))
  {
    TargetColumns(def, names);
    var cols := InsertColumns(def, names);
    if cols.Some? {
      TypedLiterals(def, cols.value, values);
    }
  }

  /** An `INSERT` has a plan when all its values are literals and one is for the primary key. */
  lemma {:induction false} InsertLiterals(def: TableDef, cols: seq<ColumnDef>, typed: seq<TypedExpr>, values: seq<Expr>)
    requires |cols| == |typed| == |values| && forall i :: 0 <= i < |values| ==> typed[i].expr == values[i]
    ensures var r, targets := PlanInsert(def, cols, typed), Names(cols);
            && (r.Some? <==> AllLiterals(typed) && def.primaryKey in targets)
            && (r.Some? ==>
                  r.value == InsertPlan(KeyFor(def.name, values[FirstAt(targets, def.primaryKey)].value),
                                        InsertedRow(targets, values), def))
  {
    PkValueIsFirst(def, cols, typed);
    if AllLiterals(typed) {
      BuiltRow(cols, typed, Names(cols), values);
    }
  }

  /** The plan of an `INSERT`: a row under its key, exactly when the relational reading accepts it. */
  lemma {:induction false} InsertAgrees(def: TableDef, names: seq<string>, values: seq<Expr>)
    requires WellDefined(def)
    ensures var r := AnalyzeInsert(def, names, values);
            && (InsertOk(def, names, values) <==> r.Some? && Planned(r.value).Some?)
            && (InsertOk(def, names, values) ==>
                  var v := InsertedKey(def, names, values);
                  Planned(r.value).value ==
                  InsertPlan(KeyFor(def.name, v), InsertedRow(Targets(def, names), values), def))
  {
    InsertAnalyzed(def, names, values);
    var r := AnalyzeInsert(def, names, values);
    if r.Some? {
      InsertLiterals(def, r.value.cols, r.value.values, values);
    }
  }

  lemma {:induction false} InsertedKeyFits(def: TableDef, names: seq<string>, values: seq<Expr>)
    requires InsertOk(def, names, values)
    ensures HasColumn(def, def.primaryKey) && Admits(TypeOf(def, def.primaryKey), InsertedKey(def, names, values))
  {
  }

  // ---------------------------------------------------------------- updated rows

  lemma {:induction false} AssignmentAgrees(def: TableDef, a: Assignment)
    ensures var r := ResolveAssignment(def, a);
            && (r.Some? <==> AssignmentOk(def, a))
            && (r.Some? ==> r.value.column.name == a.column && r.value.value.expr == a.value)
  {
  }

  lemma {:induction false} AssignmentsAgree(def: TableDef, xs: seq<Assignment>)
    ensures var r := ResolveAssignments(def, xs);
            && (r.Some? <==> forall i :: 0 <= i < |xs| ==> AssignmentOk(def, xs[i]))
            && (r.Some? ==>
                  && |r.value| == |xs|
                  && forall i :: 0 <= i < |xs| ==>
                       r.value[i].column.name == xs[i].column && r.value[i].value.expr == xs[i].value)
  {
    forall i | 0 <= i < |xs|
      ensures ResolveAssignment(def, xs[i]).Some? <==> AssignmentOk(def, xs[i])
      ensures ResolveAssignment(def, xs[i]).Some? ==>
                ResolveAssignment(def, xs[i]).value.column.name == xs[i].column
                && ResolveAssignment(def, xs[i]).value.value.expr == xs[i].value
    {
      AssignmentAgrees(def, xs[i]);
    }
  }

  lemma {:induction false} AssignedAt(row: Row, rs: seq<ResolvedAssignment>, xs: seq<Assignment>, c: string)
    requires |rs| == |xs| && AllLiteralSets(rs)
    requires forall i :: 0 <= i < |xs| ==> rs[i].column.name == xs[i].column && rs[i].value.expr == xs[i].value
    ensures c in Assigned(row, rs) <==> c in row || c in AssignedNames(xs)
    ensures c in AssignedNames(xs) ==> Assigned(row, rs)[c] == rs[LastAt(AssignedNames(xs), c)].value.expr.value
    ensures c !in AssignedNames(xs) && c in row ==> Assigned(row, rs)[c] == row[c]
    decreases |rs|
  {
    if rs != [] {
      var n := |rs| - 1;
      AssignedAt(row, rs[..n], xs[..n], c);
      assert AssignedNames(xs)[..n] == AssignedNames(xs[..n]);
      assert c in AssignedNames(xs) <==> c in AssignedNames(xs)[..n] || c == AssignedNames(xs)[n];
    }
  }

  /** Updating the stored row and updating the row itself give the same row when read back. */
  lemma {:induction false} UpdateAgrees(stored: Row, row: Row, rs: seq<ResolvedAssignment>, xs: seq<Assignment>)
    requires SameRow(stored, row) && |rs| == |xs| && AllLiteralSets(rs)
    requires forall i :: 0 <= i < |xs| ==> rs[i].column.name == xs[i].column && rs[i].value.expr == xs[i].value
    ensures AllLiteral(xs) && SameRow(Assigned(Decode(stored), rs), UpdatedRow(row, xs))
  {
    var a, b := Assigned(Decode(stored), rs), UpdatedRow(row, xs);
    assert Decode(stored).Keys == Decode(row).Keys && stored.Keys == row.Keys by {
      assert stored.Keys == Decode(stored).Keys && row.Keys == Decode(row).Keys;
    }
    forall c: string
      ensures c in a <==> c in b
      ensures c in a ==> AsRead(a[c]) == AsRead(b[c])
    {
      AssignedAt(Decode(stored), rs, xs, c);
      if c in row && c !in AssignedNames(xs) {
        assert Decode(stored)[c] == Decode(row)[c];
        AsReadTwice(row[c]);
      }
    }
  }

  // ---------------------------------------------------------------- keeping the match

  /** Two rows with the same key are the same row of the same table. */
  lemma {:induction false} KeysDiffer(tables: Tables, db: Database, t: string, v: Value, u: string, w: Value)
    requires TablesMatch(tables, db) && t in db && u in db
    requires Admits(TypeOf(db[t].def, db[t].def.primaryKey), v) && w in db[u].rows
    requires KeyFor(t, v) == KeyFor(u, w)
    ensures t == u && v == w
  {
    assert TableOk(t, db[t], tables) && TableOk(u, db[u], tables);
    KeyForInjective(t, v, u, w);
  }

  lemma {:induction false} PutTables(tables: Tables, db: Database, t: string, v: Value, row: Row)
    requires TablesMatch(tables, db) && t in db && KeysFit(db[t]) && Admits(TypeOf(db[t].def, db[t].def.primaryKey), v)
    ensures TablesMatch(tables, WithRows(db, t, db[t].rows[v := row]))
  {
    var db' := WithRows(db, t, db[t].rows[v := row]);
    forall u | u in db' ensures TableOk(u, db'[u], tables) {
      assert TableOk(u, db[u], tables);
    }
  }

  lemma {:induction false} PutStored(
    tables: Tables, entries: Entries, db: Database, t: string, v: Value, stored: Row, row: Row)
    requires TablesMatch(tables, db) && RowsStored(entries, db) && t in db
    requires KeysFit(db[t]) && Admits(TypeOf(db[t].def, db[t].def.primaryKey), v) && SameRow(stored, row)
    ensures RowsStored(entries[KeyFor(t, v) := stored], WithRows(db, t, db[t].rows[v := row]))
  {
    var key, db' := KeyFor(t, v), WithRows(db, t, db[t].rows[v := row]);
    forall u, w | u in db' && w in db'[u].rows
      ensures KeyFor(u, w) in entries[key := stored] && SameRow(entries[key := stored][KeyFor(u, w)], db'[u].rows[w])
    {
      if u == t && w == v {
      } else {
        assert w in db[u].rows;
        if KeyFor(u, w) == key {
          KeysDiffer(tables, db, t, v, u, w);
        }
      }
    }
  }

  lemma {:induction false} KeepsRowKey(k: string, db: Database, db': Database)
    requires IsRowKey(k, db)
    requires forall u | u in db :: u in db' && db[u].rows.Keys <= db'[u].rows.Keys
    ensures IsRowKey(k, db')
  {
    var u, w :| u in db && w in db[u].rows && k == KeyFor(u, w);
    assert w in db'[u].rows;
  }

  lemma {:induction false} PutOnly(entries: Entries, db: Database, t: string, v: Value, stored: Row, row: Row)
    requires OnlyRows(entries, db) && t in db
    ensures OnlyRows(entries[KeyFor(t, v) := stored], WithRows(db, t, db[t].rows[v := row]))
  {
    var db' := WithRows(db, t, db[t].rows[v := row]);
    assert IsRowKey(KeyFor(t, v), db') by {
      assert v in db'[t].rows;
    }
    forall k | k in entries ensures IsRowKey(k, db') {
      KeepsRowKey(k, db, db');
    }
  }

  lemma {:induction false} SimPut(st: State, db: Database, t: string, v: Value, stored: Row, row: Row)
    requires Sim(st, db) && t in db && KeysFit(db[t]) && Admits(TypeOf(db[t].def, db[t].def.primaryKey), v)
    requires SameRow(stored, row)
    ensures Sim(st.(entries := st.entries[KeyFor(t, v) := stored]), WithRows(db, t, db[t].rows[v := row]))
  {
    PutTables(st.tables, db, t, v, row);
    PutStored(st.tables, st.entries, db, t, v, stored, row);
    PutOnly(st.entries, db, t, v, stored, row);
  }

  lemma {:induction false} RemoveTables(tables: Tables, db: Database, t: string, v: Value)
    requires TablesMatch(tables, db) && t in db
    ensures TablesMatch(tables, WithRows(db, t, db[t].rows - {v}))
  {
    var db' := WithRows(db, t, db[t].rows - {v});
    forall u | u in db' ensures TableOk(u, db'[u], tables) {
      assert TableOk(u, db[u], tables);
    }
  }

  lemma {:induction false} RemoveStored(tables: Tables, entries: Entries, db: Database, t: string, v: Value)
    requires TablesMatch(tables, db) && RowsStored(entries, db) && t in db
    requires KeysFit(db[t]) && Admits(TypeOf(db[t].def, db[t].def.primaryKey), v)
    ensures RowsStored(entries - {KeyFor(t, v)}, WithRows(db, t, db[t].rows - {v}))
  {
    var key, db' := KeyFor(t, v), WithRows(db, t, db[t].rows - {v});
    forall u, w | u in db' && w in db'[u].rows
      ensures KeyFor(u, w) in entries - {key} && SameRow((entries - {key})[KeyFor(u, w)], db'[u].rows[w])
    {
      assert w in db[u].rows;
      if KeyFor(u, w) == key {
        KeysDiffer(tables, db, t, v, u, w);
      }
    }
  }

  lemma {:induction false} RemoveKey(k: string, db: Database, t: string, v: Value)
    requires t in db && IsRowKey(k, db) && k != KeyFor(t, v)
    ensures IsRowKey(k, WithRows(db, t, db[t].rows - {v}))
  {
    var u, w :| u in db && w in db[u].rows && k == KeyFor(u, w);
    assert w in WithRows(db, t, db[t].rows - {v})[u].rows;
  }

  lemma {:induction false} RemoveOnly(entries: Entries, db: Database, t: string, v: Value)
    requires OnlyRows(entries, db) && t in db
    ensures OnlyRows(entries - {KeyFor(t, v)}, WithRows(db, t, db[t].rows - {v}))
  {
    forall k | k in entries - {KeyFor(t, v)} ensures IsRowKey(k, WithRows(db, t, db[t].rows - {v})) {
      RemoveKey(k, db, t, v);
    }
  }

  lemma {:induction false} SimRemove(st: State, db: Database, t: string, v: Value)
    requires Sim(st, db) && t in db && KeysFit(db[t]) && Admits(TypeOf(db[t].def, db[t].def.primaryKey), v)
    ensures Sim(st.(entries := st.entries - {KeyFor(t, v)}), WithRows(db, t, db[t].rows - {v}))
  {
    RemoveTables(st.tables, db, t, v);
    RemoveStored(st.tables, st.entries, db, t, v);
    RemoveOnly(st.entries, db, t, v);
  }

  lemma {:induction false} CreateTables(tables: Tables, db: Database, def: TableDef)
    requires TablesMatch(tables, db) && def.name !in db && WellDefined(def) && Slashless(def.name)
    ensures TablesMatch(tables[def.name := def], db[def.name := Table(def, map[])])
  {
    KeyColumnFound(def);
    var db' := db[def.name := Table(def, map[])];
    forall u | u in db' ensures TableOk(u, db'[u], tables[def.name := def]) {
      if u != def.name {
        assert TableOk(u, db[u], tables);
      }
    }
  }

  lemma {:induction false} CreateStored(entries: Entries, db: Database, def: TableDef)
    requires RowsStored(entries, db) && OnlyRows(entries, db) && def.name !in db
    ensures RowsStored(entries, db[def.name := Table(def, map[])])
    ensures OnlyRows(entries, db[def.name := Table(def, map[])])
  {
    var db' := db[def.name := Table(def, map[])];
    forall u, w | u in db' && w in db'[u].rows
      ensures KeyFor(u, w) in entries && SameRow(entries[KeyFor(u, w)], db'[u].rows[w])
    {
      assert u in db && w in db[u].rows;
    }
    forall k | k in entries ensures IsRowKey(k, db') {
      KeepsRowKey(k, db, db');
    }
  }

  lemma {:induction false} SimCreate(st: State, db: Database, def: TableDef)
    requires Sim(st, db) && def.name !in db && WellDefined(def) && Slashless(def.name)
    ensures Sim(st.(tables := st.tables[def.name := def]), db[def.name := Table(def, map[])])
  {
    CreateTables(st.tables, db, def);
    CreateStored(st.entries, db, def);
  }
}
