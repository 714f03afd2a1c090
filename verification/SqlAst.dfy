/** Abstract syntax of the SQL dialect. */
module SqlAst {
  import opened Common

  datatype ColumnType = TypeInt | TypeText | TypeBool

  datatype ColumnDef = ColumnDef(name: string, typ: ColumnType, primaryKey: bool, notNull: bool)

  datatype Value = IntValue(n: int) | TextValue(s: string) | BoolValue(b: bool) | NullValue

  datatype Operator = OpEq | OpNeq | OpLt | OpGt | OpLte | OpGte | OpAnd | OpOr

  /** The text kept for an operator. */
  function OperatorText(op: Operator): string {
    match op
    case OpEq => "="
    case OpNeq => "!="
    case OpLt => "<"
    case OpGt => ">"
    case OpLte => "<="
    case OpGte => ">="
    case OpAnd => "AND"
    case OpOr => "OR"
  }

  datatype Expr =
    | Binary(left: Expr, op: Operator, right: Expr)
    | Column(name: string)
    | Literal(value: Value)
    | Star

  datatype Assignment = Assignment(column: string, value: Expr)

  /** An empty column list of `Insert` stands for all columns in order. */
  datatype Statement =
    | CreateTable(table: string, defs: seq<ColumnDef>)
    | Insert(table: string, columns: seq<string>, values: seq<Expr>)
    | Select(projection: seq<Expr>, table: string, where: Option<Expr>)
    | Update(table: string, assignments: seq<Assignment>, where: Option<Expr>)
    | Delete(table: string, where: Option<Expr>)

  const MAX_INT64: nat := 0x7fff_ffff_ffff_ffff
}
