/** From resolved statements to plans over keys. */
module SqlPlanner {
  import opened Common
  import opened SqlAst
  import opened SqlCatalog
  import opened SqlAnalyzer
  import opened SqlJson
  import SqlPrinter

  datatype Plan =
    | CreateTablePlan(def: TableDef)
    | InsertPlan(key: string, row: Row, table: TableDef)
    | PointGet(key: string, table: TableDef, columns: Option<seq<ColumnDef>>)
    | TableScan(prefix: string, table: TableDef, columns: Option<seq<ColumnDef>>)
    | PointUpdate(key: string, table: TableDef, assignments: seq<ResolvedAssignment>)
    | PointDelete(key: string, table: TableDef)

  function FormatInt(n: int): string {
    if n < 0 then "-" + SqlPrinter.Decimal(-n) else SqlPrinter.Decimal(n)
  }

  /** The text of a literal inside a key. */
  function KeyText(v: Value): string {
    match v
    case IntValue(n) => FormatInt(n)
    case TextValue(s) => s
    case BoolValue(b) => if b then "true" else "false"
    case NullValue => "null"
  }

  /** The key of the row of `table` with the given primary key; only literals are keys. */
  function KeyOf(table: TableDef, te: TypedExpr): Option<string> {
    if te.expr.Literal? then Some(RowKey(table.name, KeyText(te.expr.value))) else None
  }

  /** The value for the first of the columns that is the primary key. */
  function PkValue(table: TableDef, cols: seq<ColumnDef>, values: seq<TypedExpr>): Option<TypedExpr>
    requires |cols| == |values|
  {
    if cols == [] then None
    else if cols[0].name == table.primaryKey then Some(values[0])
    else PkValue(table, cols[1..], values[1..])
  }

  predicate AllLiterals(values: seq<TypedExpr>) {
    forall i :: 0 <= i < |values| ==> values[i].expr.Literal?
  }

  /** The row with these values; a later value of a column replaces an earlier one. */
  function RowOf(cols: seq<ColumnDef>, values: seq<TypedExpr>): Row
    requires |cols| == |values| && AllLiterals(values)
  {
    if cols == [] then map[]
    else
      var n := |cols| - 1;
      RowOf(cols[..n], values[..n])[cols[n].name := values[n].expr.value]
  }

  function PlanInsert(table: TableDef, cols: seq<ColumnDef>, values: seq<TypedExpr>): Option<Plan>
    requires |cols| == |values|
  {
    var pk := PkValue(table, cols, values);
    if pk.None? then None
    else
      var key := KeyOf(table, pk.value);
      if key.None? || !AllLiterals(values) then None
      else Some(InsertPlan(key.value, RowOf(cols, values), table))
  }

  function PlanSelect(table: TableDef, columns: Option<seq<ColumnDef>>, where: Option<ResolvedWhere>): Option<Plan> {
    if where.Some? && where.value.op == OpEq then
      var key := KeyOf(table, where.value.value);
      if key.None? then None else Some(PointGet(key.value, table, columns))
    else Some(TableScan(table.name + "/", table, columns))
  }

  function PlanUpdate(
    table: TableDef, assignments: seq<ResolvedAssignment>, where: Option<ResolvedWhere>): Option<Plan>
  {
    if where.None? || where.value.op != OpEq then None
    else
      var key := KeyOf(table, where.value.value);
      if key.None? then None else Some(PointUpdate(key.value, table, assignments))
  }

  function PlanDelete(table: TableDef, where: Option<ResolvedWhere>): Option<Plan> {
    if where.None? || where.value.op != OpEq then None
    else
      var key := KeyOf(table, where.value.value);
      if key.None? then None else Some(PointDelete(key.value, table))
  }

  function Planned(r: Resolved): Option<Plan>
    requires r.ResolvedInsert? ==> |r.cols| == |r.values|
  {
    match r
    case ResolvedCreate(def) => Some(CreateTablePlan(def))
    case ResolvedInsert(table, cols, values) => PlanInsert(table, cols, values)
    case ResolvedSelect(table, columns, where) => PlanSelect(table, columns, where)
    case ResolvedUpdate(table, assignments, where) => PlanUpdate(table, assignments, where)
    case ResolvedDelete(table, where) => PlanDelete(table, where)
  }

  // ---------------------------------------------------------------- the planner's loops

  lemma {:induction false} PkValueAt(table: TableDef, cols: seq<ColumnDef>, values: seq<TypedExpr>, i: nat)
    requires |cols| == |values| && i <= |cols| && forall j :: 0 <= j < i ==> cols[j].name != table.primaryKey
    ensures i < |cols| && cols[i].name == table.primaryKey ==> PkValue(table, cols, values) == Some(values[i])
    ensures i == |cols| ==> PkValue(table, cols, values).None?
    decreases i
  {
    if i > 0 {
      assert cols[0].name != table.primaryKey;
      PkValueAt(table, cols[1..], values[1..], i - 1);
    }
  }

  method FindPkValue(table: TableDef, cols: seq<ColumnDef>, values: seq<TypedExpr>) returns (r: Option<TypedExpr>)
    requires |cols| == |values|
    ensures r == PkValue(table, cols, values)
  {
    for i := 0 to |cols|
      invariant forall j :: 0 <= j < i ==> cols[j].name != table.primaryKey
    {
      if cols[i].name == table.primaryKey {
        PkValueAt(table, cols, values, i);
        return Some(values[i]);
      }
    }
    PkValueAt(table, cols, values, |cols|);
    return None;
  }

  method BuildRow(cols: seq<ColumnDef>, values: seq<TypedExpr>) returns (r: Option<Row>)
    requires |cols| == |values|
    ensures r == if AllLiterals(values) then Some(RowOf(cols, values)) else None
  {
    var row: Row := map[];
    for i := 0 to |cols|
      invariant AllLiterals(values[..i]) && row == RowOf(cols[..i], values[..i])
    {
      if !values[i].expr.Literal? {
        return None;
      }
      row := row[cols[i].name := values[i].expr.value];
      assert cols[..i + 1][..i] == cols[..i] && values[..i + 1][..i] == values[..i];
    }
    assert cols[..|cols|] == cols && values[..|cols|] == values;
    return Some(row);
  }

  method MakePlan(r: Resolved) returns (p: Option<Plan>)
    requires r.ResolvedInsert? ==> |r.cols| == |r.values|
    ensures p == Planned(r)
  {
    if r.ResolvedInsert? {
      var pk := FindPkValue(r.table, r.cols, r.values);
      if pk.None? {
        return None;
      }
      var key := KeyOf(r.table, pk.value);
      if key.None? {
        return None;
      }
      var row := BuildRow(r.cols, r.values);
      if row.None? {
        return None;
      }
      return Some(InsertPlan(key.value, row.value, r.table));
    }
    p := Planned(r);
  }
}
