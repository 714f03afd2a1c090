/**
 A relational reading of the statements, without keys, plans or storage: a
 database maps table names to tables, a table maps primary keys to rows.
 */
module SqlRelational {
  import opened Common
  import opened SqlAst
  import opened SqlCatalog
  import opened SqlJson
  import opened SqlKeys

  datatype Table = Table(def: TableDef, rows: map<Value, Row>)

  type Database = map<string, Table>

  /** The answer to a statement: a number of changed rows, or the selected primary keys and the columns wanted. */
  datatype Answer =
    | Created
    | Changed(count: nat)
    | Deleted
    | Selected(columns: seq<ColumnDef>, keys: set<Value>)

  datatype Effect = Effect(db: Database, answer: Answer)

  // ---------------------------------------------------------------- columns and lists

  predicate HasColumn(def: TableDef, name: string) {
    FindColumn(def, name).Some?
  }

  function TypeOf(def: TableDef, name: string): ColumnType
    requires HasColumn(def, name)
  {
    FindColumn(def, name).value.typ
  }

  /** The last place of a name in a list. */
  function LastAt(names: seq<string>, name: string): (i: nat)
    requires name in names
    ensures i < |names| && names[i] == name && forall j :: i < j < |names| ==> names[j] != name
  {
    var n := |names| - 1;
    if names[n] == name then n else LastAt(names[..n], name)
  }

  /** The first place of a name in a list. */
  function FirstAt(names: seq<string>, name: string): (i: nat)
    requires name in names
    ensures i < |names| && names[i] == name && forall j :: 0 <= j < i ==> names[j] != name
  {
    if names[0] == name then 0 else 1 + FirstAt(names[1..], name)
  }

  predicate IsLiteralOf(e: Expr, typ: ColumnType) {
    e.Literal? && Admits(typ, e.value)
  }

  /** The condition `pk = literal`, which is the only one there is. */
  function WhereKey(def: TableDef, where: Expr): Option<Value> {
    if && where.Binary? && where.left == Column(def.primaryKey) && where.op == OpEq
       && HasColumn(def, def.primaryKey) && IsLiteralOf(where.right, TypeOf(def, def.primaryKey))
    then Some(where.right.value) else None
  }

  // ---------------------------------------------------------------- creating

  /** The places of the columns marked as primary key. */
  function Marked(defs: seq<ColumnDef>): set<int> {
    set i | 0 <= i < |defs| && defs[i].primaryKey
  }

  /** No two columns share a name, and exactly one is marked as primary key. */
  predicate Definable(defs: seq<ColumnDef>) {
    (forall i, j :: 0 <= i < j < |defs| ==> defs[i].name != defs[j].name) && |Marked(defs)| == 1
  }

  /** The name of the first marked column. */
  function KeyName(defs: seq<ColumnDef>): string {
    if defs == [] then "" else if defs[0].primaryKey then defs[0].name else KeyName(defs[1..])
  }

  // ---------------------------------------------------------------- inserting

  function Targets(def: TableDef, names: seq<string>): seq<string> {
    if names == [] then seq(|def.columns|, i requires 0 <= i < |def.columns| => def.columns[i].name) else names
  }

  /** One literal of the right type for each named column, the primary key among them. */
  predicate InsertOk(def: TableDef, names: seq<string>, values: seq<Expr>) {
    var targets := Targets(def, names);
    && |values| == |targets|
    && (forall i :: 0 <= i < |targets| ==>
          HasColumn(def, targets[i]) && IsLiteralOf(values[i], TypeOf(def, targets[i])))
    && def.primaryKey in targets
  }

  function InsertedRow(targets: seq<string>, values: seq<Expr>): Row
    requires |values| == |targets| && forall i :: 0 <= i < |values| ==> values[i].Literal?
  {
    map c | c in targets :: values[LastAt(targets, c)].value
  }

  function InsertedKey(def: TableDef, names: seq<string>, values: seq<Expr>): Value
    requires InsertOk(def, names, values)
  {
    values[FirstAt(Targets(def, names), def.primaryKey)].value
  }

  // ---------------------------------------------------------------- selecting

  predicate SelectsAll(projection: seq<Expr>) {
    projection == [] || projection == [Star]
  }

  predicate ProjectionOk(def: TableDef, projection: seq<Expr>) {
    || SelectsAll(projection)
    || forall i :: 0 <= i < |projection| ==> projection[i].Column? && HasColumn(def, projection[i].name)
  }

  function ProjectionColumns(def: TableDef, projection: seq<Expr>): seq<ColumnDef>
    requires ProjectionOk(def, projection)
  {
    if SelectsAll(projection) then def.columns
    else seq(|projection|, i requires 0 <= i < |projection| => FindColumn(def, projection[i].name).value)
  }

  /** What is shown of a row: the wanted columns as they are read back, null where the row has none. */
  function Shown(row: Row, columns: seq<ColumnDef>): Row {
    map i | 0 <= i < |columns| ::
      columns[i].name := if columns[i].name in row then AsRead(row[columns[i].name]) else NullValue
  }

  // ---------------------------------------------------------------- updating

  /** A value is a literal of the column's type or, as long as no row is there to change, a column of that type. */
  predicate AssignmentOk(def: TableDef, a: Assignment) {
    && HasColumn(def, a.column)
    && (|| IsLiteralOf(a.value, TypeOf(def, a.column))
        || (a.value.Column? && HasColumn(def, a.value.name) && TypeOf(def, a.value.name) == TypeOf(def, a.column)))
  }

  predicate AllLiteral(xs: seq<Assignment>) {
    forall i :: 0 <= i < |xs| ==> xs[i].value.Literal?
  }

  function AssignedNames(xs: seq<Assignment>): seq<string> {
    seq(|xs|, i requires 0 <= i < |xs| => xs[i].column)
  }

  /** Assigned columns take their last value, the others keep theirs. */
  function UpdatedRow(row: Row, xs: seq<Assignment>): Row
    requires AllLiteral(xs)
  {
    map c | c in row.Keys + (set x | x in AssignedNames(xs)) ::
      if c in AssignedNames(xs) then xs[LastAt(AssignedNames(xs), c)].value.value else row[c]
  }

  // ---------------------------------------------------------------- statements

  function WithRows(db: Database, table: string, rows: map<Value, Row>): Database
    requires table in db
  {
    db[table := db[table].(rows := rows)]
  }

  /** What a statement does to a database, or nothing at all when it is in error. */
  ghost function Meaning(s: Statement, db: Database): Option<Effect> {
    if s.CreateTable? then
      if !Definable(s.defs) || s.table in db then None
      else Some(Effect(db[s.table := Table(TableDef(s.table, s.defs, KeyName(s.defs)), map[])], Created))
    else if s.table !in db then None
    else
      var def, rows := db[s.table].def, db[s.table].rows;
      match s
      case Insert(table, names, values) =>
        if !InsertOk(def, names, values) then None
        else
          var v, row := InsertedKey(def, names, values), InsertedRow(Targets(def, names), values);
          Some(Effect(WithRows(db, table, rows[v := row]), Changed(1)))
      case Select(projection, table, where) =>
        if !ProjectionOk(def, projection) then None
        else
          var columns := ProjectionColumns(def, projection);
          if where.None? then Some(Effect(db, Selected(columns, rows.Keys)))
          else
            var v := WhereKey(def, where.value);
            if v.None? then None else Some(Effect(db, Selected(columns, rows.Keys * {v.value})))
      case Update(table, xs, where) =>
        if where.None? || WhereKey(def, where.value).None?
           || !(forall i :: 0 <= i < |xs| ==> AssignmentOk(def, xs[i])) then None
        else
          var v := WhereKey(def, where.value).value;
          if v !in rows then Some(Effect(db, Changed(0)))
          else if !AllLiteral(xs) then None
          else Some(Effect(WithRows(db, table, rows[v := UpdatedRow(rows[v], xs)]), Changed(1)))
      case Delete(table, where) =>
        if where.None? || WhereKey(def, where.value).None? then None
        else Some(Effect(WithRows(db, table, rows - {WhereKey(def, where.value).value}), Deleted))
  }
}
