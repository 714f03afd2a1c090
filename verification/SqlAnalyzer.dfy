/**
 Name resolution and type checking of statements against the catalog: what
 the analyzer accepts and what it resolves it to, and the loops that do so.
 */
module SqlAnalyzer {
  import opened Common
  import opened SqlAst
  import opened SqlCatalog

  datatype TypedExpr = TypedExpr(expr: Expr, ctype: ColumnType)

  datatype ResolvedWhere = ResolvedWhere(pkColumn: ColumnDef, op: Operator, value: TypedExpr)

  datatype ResolvedAssignment = ResolvedAssignment(column: ColumnDef, value: TypedExpr)

  /** A `columns` of `None` projects to all columns of the table. */
  datatype Resolved =
    | ResolvedCreate(def: TableDef)
    | ResolvedInsert(table: TableDef, cols: seq<ColumnDef>, values: seq<TypedExpr>)
    | ResolvedSelect(table: TableDef, columns: Option<seq<ColumnDef>>, where: Option<ResolvedWhere>)
    | ResolvedUpdate(table: TableDef, assignments: seq<ResolvedAssignment>, where: Option<ResolvedWhere>)
    | ResolvedDelete(table: TableDef, where: Option<ResolvedWhere>)

  // ---------------------------------------------------------------- expressions

  /** The type of a literal; a null counts as a number. `SqlKeys.Admits` says it from the column's side. */
  function LiteralType(v: Value): ColumnType {
    match v
    case IntValue(_) => TypeInt
    case TextValue(_) => TypeText
    case BoolValue(_) => TypeBool
    case NullValue => TypeInt
  }

  function ResolveExpr(e: Expr, table: TableDef): Option<TypedExpr> {
    match e
    case Literal(v) => Some(TypedExpr(e, LiteralType(v)))
    case Column(name) =>
      var col := FindColumn(table, name);
      if col.None? then None else Some(TypedExpr(e, col.value.typ))
    case _ => None
  }

  /** The expression resolved, when its type is the one expected. */
  function ResolveAs(e: Expr, table: TableDef, typ: ColumnType): Option<TypedExpr> {
    var te := ResolveExpr(e, table);
    if te.Some? && te.value.ctype == typ then te else None
  }

  /** Only a comparison `pk = value` is a condition. */
  function ResolveWhere(e: Expr, table: TableDef): Option<ResolvedWhere> {
    if !e.Binary? || e.left != Column(table.primaryKey) || e.op != OpEq then None
    else
      var pk := FindColumn(table, table.primaryKey);
      if pk.None? then None
      else
        var te := ResolveAs(e.right, table, pk.value.typ);
        if te.None? then None else Some(ResolvedWhere(pk.value, e.op, te.value))
  }

  function ResolveColumnExpr(e: Expr, table: TableDef): Option<ColumnDef> {
    if e.Column? then FindColumn(table, e.name) else None
  }

  // ---------------------------------------------------------------- statements

  /** The definition a `CREATE TABLE` stands for: distinct column names and exactly one primary key. */
  ghost function DefOf(table: string, defs: seq<ColumnDef>): (r: Option<TableDef>)
    ensures r.Some? ==> WellDefined(r.value)
  {
    if DistinctNames(defs) && exists i: nat :: OnlyKey(defs, i)
    then
      var i: nat :| OnlyKey(defs, i);
      Some(TableDef(table, defs, defs[i].name))
    else None
  }

  /** All the names, resolved in order. */
  function NamedColumns(table: TableDef, names: seq<string>): Option<seq<ColumnDef>> {
    if forall i :: 0 <= i < |names| ==> FindColumn(table, names[i]).Some?
    then Some(seq(|names|, i requires 0 <= i < |names| && FindColumn(table, names[i]).Some? =>
                             FindColumn(table, names[i]).value))
    else None
  }

  function InsertColumns(table: TableDef, names: seq<string>): Option<seq<ColumnDef>> {
    if names == [] then Some(table.columns) else NamedColumns(table, names)
  }

  /** One value for each column, each of the column's type. */
  function TypedValues(table: TableDef, cols: seq<ColumnDef>, values: seq<Expr>): Option<seq<TypedExpr>> {
    if |cols| == |values| && forall i :: 0 <= i < |cols| ==> ResolveAs(values[i], table, cols[i].typ).Some?
    then Some(seq(|cols|, i requires 0 <= i < |cols| && |cols| == |values|
                                     && ResolveAs(values[i], table, cols[i].typ).Some?
                            => ResolveAs(values[i], table, cols[i].typ).value))
    else None
  }

  function AnalyzeInsert(table: TableDef, names: seq<string>, values: seq<Expr>): Option<Resolved> {
    var cols := InsertColumns(table, names);
    if cols.None? then None
    else
      var typed := TypedValues(table, cols.value, values);
      if typed.None? then None else Some(ResolvedInsert(table, cols.value, typed.value))
  }

  function ProjectedColumns(table: TableDef, projection: seq<Expr>): Option<seq<ColumnDef>> {
    if forall i :: 0 <= i < |projection| ==> ResolveColumnExpr(projection[i], table).Some?
    then Some(seq(|projection|, i requires 0 <= i < |projection| && ResolveColumnExpr(projection[i], table).Some?
                                  => ResolveColumnExpr(projection[i], table).value))
    else None
  }

  /** `*` alone, or no list at all, projects to everything. */
  function ResolveProjection(table: TableDef, projection: seq<Expr>): Option<Option<seq<ColumnDef>>> {
    if projection == [] || projection == [Star] then Some(None)
    else
      var cols := ProjectedColumns(table, projection);
      if cols.None? then None else Some(cols)
  }

  function ResolveOptional(table: TableDef, where: Option<Expr>): Option<Option<ResolvedWhere>> {
    if where.None? then Some(None)
    else
      var w := ResolveWhere(where.value, table);
      if w.None? then None else Some(w)
  }

  function AnalyzeSelect(table: TableDef, projection: seq<Expr>, where: Option<Expr>): Option<Resolved> {
    var cols, w := ResolveProjection(table, projection), ResolveOptional(table, where);
    if cols.None? || w.None? then None else Some(ResolvedSelect(table, cols.value, w.value))
  }

  function ResolveAssignment(table: TableDef, a: Assignment): Option<ResolvedAssignment> {
    var col := FindColumn(table, a.column);
    if col.None? then None
    else
      var te := ResolveAs(a.value, table, col.value.typ);
      if te.None? then None else Some(ResolvedAssignment(col.value, te.value))
  }

  function ResolveAssignments(table: TableDef, xs: seq<Assignment>): Option<seq<ResolvedAssignment>> {
    if forall i :: 0 <= i < |xs| ==> ResolveAssignment(table, xs[i]).Some?
    then Some(seq(|xs|, i requires 0 <= i < |xs| && ResolveAssignment(table, xs[i]).Some? =>
                          ResolveAssignment(table, xs[i]).value))
    else None
  }

  /** The condition is required. */
  function ResolveRequired(table: TableDef, where: Option<Expr>): Option<ResolvedWhere> {
    if where.None? then None else ResolveWhere(where.value, table)
  }

  function AnalyzeUpdate(table: TableDef, xs: seq<Assignment>, where: Option<Expr>): Option<Resolved> {
    var assignments, w := ResolveAssignments(table, xs), ResolveRequired(table, where);
    if assignments.None? || w.None? then None else Some(ResolvedUpdate(table, assignments.value, w))
  }

  function AnalyzeDelete(table: TableDef, where: Option<Expr>): Option<Resolved> {
    var w := ResolveRequired(table, where);
    if w.None? then None else Some(ResolvedDelete(table, w))
  }

  /** What the analyzer makes of a statement. */
  ghost function Analyzed(s: Statement, tables: Tables): Option<Resolved> {
    if s.CreateTable? then
      var def := DefOf(s.table, s.defs);
      if def.None? then None else Some(ResolvedCreate(def.value))
    else if s.table !in tables then None
    else
      var table := tables[s.table];
      match s
      case Insert(_, names, values) => AnalyzeInsert(table, names, values)
      case Select(projection, _, where) => AnalyzeSelect(table, projection, where)
      case Update(_, xs, where) => AnalyzeUpdate(table, xs, where)
      case Delete(_, where) => AnalyzeDelete(table, where)
  }

  // ---------------------------------------------------------------- the analyzer

  method CheckNames(defs: seq<ColumnDef>) returns (ok: bool)
    ensures ok <==> DistinctNames(defs)
  {
    var seen: set<string> := {};
    for i := 0 to |defs|
      invariant forall name :: name in seen <==> exists j :: 0 <= j < i && defs[j].name == name
      invariant DistinctNames(defs[..i])
    {
      if defs[i].name in seen {
        return false;
      }
      seen := seen + {defs[i].name};
    }
    assert defs[..|defs|] == defs;
    return true;
  }

  method CreateTableDef(table: string, defs: seq<ColumnDef>) returns (r: Option<TableDef>)
    ensures r == DefOf(table, defs)
    ensures r.Some? <==> DistinctNames(defs) && exists i: nat :: OnlyKey(defs, i)
    ensures r.Some? ==>
              && r.value.name == table && r.value.columns == defs
              && exists i: nat :: OnlyKey(defs, i) && r.value.primaryKey == defs[i].name
  {
    var distinct := CheckNames(defs);
    if !distinct {
      return None;
    }
    var count, name := 0, "";
    ghost var first := 0;
    for i := 0 to |defs|
      invariant count == 0 ==> forall j :: 0 <= j < i ==> !defs[j].primaryKey
      invariant count >= 1 ==> first < i && defs[first].primaryKey
      invariant count == 1 ==> name == defs[first].name && forall j :: 0 <= j < i && j != first ==> !defs[j].primaryKey
      invariant count > 1 ==> exists j :: first < j < i && defs[j].primaryKey
      invariant count >= 0
    {
      if defs[i].primaryKey {
        if count == 0 {
          first := i;
        }
        count := count + 1;
        name := defs[i].name;
      }
    }
    if count != 1 {
      OnlyKeyIsKey(defs);
      return None;
    }
    assert OnlyKey(defs, first);
    return Some(TableDef(table, defs, name));
  }

  method ResolveNames(table: TableDef, names: seq<string>) returns (r: Option<seq<ColumnDef>>)
    ensures r == NamedColumns(table, names)
  {
    var cols: seq<ColumnDef> := [];
    for i := 0 to |names|
      invariant |cols| == i && forall j :: 0 <= j < i ==> FindColumn(table, names[j]) == Some(cols[j])
    {
      var col := SearchColumn(table, names[i]);
      if col.None? {
        return None;
      }
      cols := cols + [col.value];
    }
    assert cols == NamedColumns(table, names).value;
    return Some(cols);
  }

  method CheckValues(table: TableDef, cols: seq<ColumnDef>, values: seq<Expr>) returns (r: Option<seq<TypedExpr>>)
    ensures r == TypedValues(table, cols, values)
  {
    if |values| != |cols| {
      return None;
    }
    var typed: seq<TypedExpr> := [];
    for i := 0 to |values|
      invariant |typed| == i && forall j :: 0 <= j < i ==> ResolveAs(values[j], table, cols[j].typ) == Some(typed[j])
    {
      var te := ResolveExpr(values[i], table);
      if te.None? || te.value.ctype != cols[i].typ {
        assert ResolveAs(values[i], table, cols[i].typ).None?;
        return None;
      }
      typed := typed + [te.value];
    }
    assert typed == TypedValues(table, cols, values).value;
    return Some(typed);
  }

  method ResolveSelectList(table: TableDef, projection: seq<Expr>) returns (r: Option<Option<seq<ColumnDef>>>)
    ensures r == ResolveProjection(table, projection)
  {
    if |projection| == 0 || (|projection| == 1 && projection[0] == Star) {
      return Some(None);
    }
    var cols: seq<ColumnDef> := [];
    for i := 0 to |projection|
      invariant |cols| == i && forall j :: 0 <= j < i ==> ResolveColumnExpr(projection[j], table) == Some(cols[j])
    {
      if projection[i].Star? {
        return None;
      }
      var col := ResolveColumnExpr(projection[i], table);
      if col.None? {
        return None;
      }
      cols := cols + [col.value];
    }
    assert cols == ProjectedColumns(table, projection).value;
    return Some(Some(cols));
  }

  method ResolveSets(table: TableDef, xs: seq<Assignment>) returns (r: Option<seq<ResolvedAssignment>>)
    ensures r == ResolveAssignments(table, xs)
  {
    var assignments: seq<ResolvedAssignment> := [];
    for i := 0 to |xs|
      invariant |assignments| == i && forall j :: 0 <= j < i ==> ResolveAssignment(table, xs[j]) == Some(assignments[j])
    {
      var col := SearchColumn(table, xs[i].column);
      if col.None? {
        assert ResolveAssignment(table, xs[i]).None?;
        return None;
      }
      var te := ResolveExpr(xs[i].value, table);
      if te.None? || te.value.ctype != col.value.typ {
        assert ResolveAssignment(table, xs[i]).None?;
        return None;
      }
      assignments := assignments + [ResolvedAssignment(col.value, te.value)];
    }
    assert assignments == ResolveAssignments(table, xs).value;
    return Some(assignments);
  }

  method Analyze(s: Statement, cat: Catalog) returns (r: Option<Resolved>)
    ensures r == Analyzed(s, cat.tables)
  {
    if s.CreateTable? {
      var def := CreateTableDef(s.table, s.defs);
      return if def.None? then None else Some(ResolvedCreate(def.value));
    }
    var found := cat.GetTable(s.table);
    if found.None? {
      return None;
    }
    var table := found.value;
    match s {
      case Insert(_, names, values) =>
        var cols := Some(table.columns);
        if |names| != 0 {
          cols := ResolveNames(table, names);
        }
        if cols.None? {
          return None;
        }
        var typed := CheckValues(table, cols.value, values);
        if typed.None? {
          return None;
        }
        return Some(ResolvedInsert(table, cols.value, typed.value));
      case Select(projection, _, where) =>
        var cols := ResolveSelectList(table, projection);
        if cols.None? {
          return None;
        }
        var w: Option<ResolvedWhere> := None;
        if where.Some? {
          w := ResolveWhere(where.value, table);
          if w.None? {
            return None;
          }
        }
        return Some(ResolvedSelect(table, cols.value, w));
      case Update(_, xs, where) =>
        var assignments := ResolveSets(table, xs);
        if assignments.None? || where.None? {
          return None;
        }
        var w := ResolveWhere(where.value, table);
        if w.None? {
          return None;
        }
        return Some(ResolvedUpdate(table, assignments.value, w));
      case Delete(_, where) =>
        if where.None? {
          return None;
        }
        var w := ResolveWhere(where.value, table);
        if w.None? {
          return None;
        }
        return Some(ResolvedDelete(table, w));
    }
  }
}
