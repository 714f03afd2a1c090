/** Plans carried out on the key-value store and the catalog. */
module SqlExecutor {
  import opened Common
  import opened SqlAst
  import opened SqlCatalog
  import opened SqlAnalyzer
  import opened SqlPlanner
  import opened SqlJson

  type Entries = map<string, Row>

  datatype Entry = Entry(key: string, row: Row)

  datatype ResultSet = ResultSet(columns: seq<string>, rows: seq<Row>, affected: nat)

  /** What a statement works on. */
  datatype State = State(tables: Tables, entries: Entries)

  predicate HasPrefix(key: string, prefix: string) {
    |prefix| <= |key| && key[..|prefix|] == prefix
  }

  /** The entries under a prefix, each once, in some order. */
  predicate IsScan(entries: Entries, prefix: string, scan: seq<Entry>) {
    && (forall i :: 0 <= i < |scan| ==>
          scan[i].key in entries && HasPrefix(scan[i].key, prefix) && scan[i].row == entries[scan[i].key])
    && (forall i, j :: 0 <= i < j < |scan| ==> scan[i].key != scan[j].key)
    && (forall k :: k in entries && HasPrefix(k, prefix) ==> exists i :: 0 <= i < |scan| && scan[i].key == k)
  }

  function Names(cols: seq<ColumnDef>): seq<string> {
    seq(|cols|, i requires 0 <= i < |cols| => cols[i].name)
  }

  function Projected(table: TableDef, columns: Option<seq<ColumnDef>>): seq<ColumnDef> {
    if columns.None? then table.columns else columns.value
  }

  /** The named fields of a row; a field the row does not have is null. */
  function ProjectRow(row: Row, cols: seq<ColumnDef>): Row {
    map c | c in Names(cols) :: if c in row then row[c] else NullValue
  }

  function ProjectScan(scan: seq<Entry>, cols: seq<ColumnDef>): seq<Row> {
    seq(|scan|, i requires 0 <= i < |scan| => ProjectRow(Decode(scan[i].row), cols))
  }

  predicate AllLiteralSets(xs: seq<ResolvedAssignment>) {
    forall i :: 0 <= i < |xs| ==> xs[i].value.expr.Literal?
  }

  /** The row after the assignments, in order. */
  function Assigned(row: Row, xs: seq<ResolvedAssignment>): Row
    requires AllLiteralSets(xs)
  {
    if xs == [] then row
    else
      var n := |xs| - 1;
      Assigned(row, xs[..n])[xs[n].column.name := xs[n].value.expr.value]
  }

  /** The state and the result after a plan; `scan` is what the store answers to a table scan. */
  function Executed(plan: Plan, st: State, scan: seq<Entry>): (State, Option<ResultSet>) {
    match plan
    case CreateTablePlan(def) =>
      if def.name in st.tables then (st, None)
      else (st.(tables := st.tables[def.name := def]), Some(ResultSet([], [], 0)))
    case InsertPlan(key, row, _) => (st.(entries := st.entries[key := row]), Some(ResultSet([], [], 1)))
    case PointGet(key, table, columns) =>
      var cols := Projected(table, columns);
      if key !in st.entries then (st, Some(ResultSet(Names(cols), [], 0)))
      else (st, Some(ResultSet(Names(cols), [ProjectRow(Decode(st.entries[key]), cols)], 0)))
    case TableScan(_, table, columns) =>
      var cols := Projected(table, columns);
      (st, Some(ResultSet(Names(cols), ProjectScan(scan, cols), 0)))
    case PointUpdate(key, _, xs) =>
      if key !in st.entries then (st, Some(ResultSet([], [], 0)))
      else if !AllLiteralSets(xs) then (st, None)
      else (st.(entries := st.entries[key := Assigned(Decode(st.entries[key]), xs)]), Some(ResultSet([], [], 1)))
    case PointDelete(key, _) => (st.(entries := st.entries - {key}), Some(ResultSet([], [], 1)))
  }

  // ---------------------------------------------------------------- the store and the executors

  class Kv {
    var entries: Entries

    method Get(key: string) returns (row: Option<Row>)
      ensures row == if key in entries then Some(entries[key]) else None
    {
      row := if key in entries then Some(entries[key]) else None;
    }

    method Put(key: string, row: Row)
      modifies this
      ensures entries == old(entries)[key := row]
    {
      entries := entries[key := row];
    }

    method Delete(key: string)
      modifies this
      ensures entries == old(entries) - {key}
    {
      entries := entries - {key};
    }

    method Scan(prefix: string) returns (scan: seq<Entry>)
      ensures IsScan(entries, prefix, scan)
    {
      scan := [];
      var left := entries.Keys;
      while left != {}
        invariant left <= entries.Keys
        invariant forall i :: 0 <= i < |scan| ==>
                    && scan[i].key in entries && scan[i].key !in left
                    && HasPrefix(scan[i].key, prefix) && scan[i].row == entries[scan[i].key]
        invariant forall i, j :: 0 <= i < j < |scan| ==> scan[i].key != scan[j].key
        invariant forall k :: k in entries && HasPrefix(k, prefix) && k !in left ==>
                    exists i :: 0 <= i < |scan| && scan[i].key == k
        decreases left
      {
        var k :| k in left;
        ghost var before := scan;
        if HasPrefix(k, prefix) {
          scan := scan + [Entry(k, entries[k])];
          assert scan[|before|].key == k;
        }
        assert forall i :: 0 <= i < |before| ==> scan[i] == before[i];
        left := left - {k};
      }
    }
  }

  method ColumnNames(cols: seq<ColumnDef>) returns (names: seq<string>)
    ensures names == Names(cols)
  {
    names := [];
    for i := 0 to |cols|
      invariant |names| == i && forall j :: 0 <= j < i ==> names[j] == cols[j].name
    {
      names := names + [cols[i].name];
    }
  }

  method ProjectFields(row: Row, cols: seq<ColumnDef>) returns (r: Row)
    ensures r == ProjectRow(row, cols)
  {
    r := map[];
    for i := 0 to |cols|
      invariant r == ProjectRow(row, cols[..i])
    {
      r := r[cols[i].name := if cols[i].name in row then row[cols[i].name] else NullValue];
      NamesGrow(cols, i);
    }
    assert cols[..|cols|] == cols;
  }

  lemma {:induction false} NamesGrow(cols: seq<ColumnDef>, i: nat)
    requires i < |cols|
    ensures Names(cols[..i + 1]) == Names(cols[..i]) + [cols[i].name]
  {
  }

  method ProjectAll(scan: seq<Entry>, cols: seq<ColumnDef>) returns (rows: seq<Row>)
    ensures rows == ProjectScan(scan, cols)
  {
    rows := [];
    for i := 0 to |scan|
      invariant |rows| == i && forall j :: 0 <= j < i ==> rows[j] == ProjectRow(Decode(scan[j].row), cols)
    {
      var row := ProjectFields(Decode(scan[i].row), cols);
      rows := rows + [row];
    }
  }

  method Assign(row: Row, xs: seq<ResolvedAssignment>) returns (r: Option<Row>)
    ensures r == if AllLiteralSets(xs) then Some(Assigned(row, xs)) else None
  {
    var now := row;
    for i := 0 to |xs|
      invariant AllLiteralSets(xs[..i]) && now == Assigned(row, xs[..i])
    {
      if !xs[i].value.expr.Literal? {
        return None;
      }
      now := now[xs[i].column.name := xs[i].value.expr.value];
      assert xs[..i + 1][..i] == xs[..i];
    }
    assert xs[..|xs|] == xs;
    return Some(now);
  }

  method Execute(plan: Plan, kv: Kv, cat: Catalog) returns (r: Option<ResultSet>, ghost scan: seq<Entry>)
    modifies kv, cat
    ensures plan.TableScan? ==> IsScan(old(kv.entries), plan.prefix, scan)
    ensures (State(cat.tables, kv.entries), r) == Executed(plan, State(old(cat.tables), old(kv.entries)), scan)
  {
    scan := [];
    match plan {
      case CreateTablePlan(def) =>
        var ok := cat.CreateTable(def);
        return if ok then Some(ResultSet([], [], 0)) else None, scan;
      case InsertPlan(key, row, _) =>
        kv.Put(key, row);
        return Some(ResultSet([], [], 1)), scan;
      case PointGet(key, table, columns) =>
        var cols := Projected(table, columns);
        var names := ColumnNames(cols);
        var found := kv.Get(key);
        if found.None? {
          return Some(ResultSet(names, [], 0)), scan;
        }
        var row := ProjectFields(Decode(found.value), cols);
        return Some(ResultSet(names, [row], 0)), scan;
      case TableScan(prefix, table, columns) =>
        var entries := kv.Scan(prefix);
        scan := entries;
        var cols := Projected(table, columns);
        var names := ColumnNames(cols);
        var rows := ProjectAll(entries, cols);
        return Some(ResultSet(names, rows, 0)), scan;
      case PointUpdate(key, _, xs) =>
        var found := kv.Get(key);
        if found.None? {
          return Some(ResultSet([], [], 0)), scan;
        }
        var row := Assign(Decode(found.value), xs);
        if row.None? {
          return None, scan;
        }
        kv.Put(key, row.value);
        return Some(ResultSet([], [], 1)), scan;
      case PointDelete(key, _) =>
        kv.Delete(key);
        return Some(ResultSet([], [], 1)), scan;
    }
  }
}
