/**
 The text of a statement, fully parenthesised, as a list of words.  The words
 of keywords and symbols carry no literal of their own; `Spells` says which
 texts stand for them.
 */
module SqlPrinter {
  import opened Common
  import opened SqlTokens
  import opened SqlAst
  import opened SqlLexerFacts

  function KeyWord(k: Keyword): Word {
    Word(Key(k), "")
  }

  function SymbolWord(s: Symbol): Word {
    Word(Sym(s), "")
  }

  function DigitChar(d: nat): char
    requires d < 10
  {
    ('0' as int + d) as char
  }

  function Decimal(n: nat): string {
    if n < 10 then [DigitChar(n)] else Decimal(n / 10) + [DigitChar(n % 10)]
  }

  function OperatorType(op: Operator): TokenType {
    match op
    case OpEq => Sym(EQ)
    case OpNeq => Sym(NEQ)
    case OpLt => Sym(LT)
    case OpGt => Sym(GT)
    case OpLte => Sym(LTE)
    case OpGte => Sym(GTE)
    case OpAnd => Key(AND)
    case OpOr => Key(OR)
  }

  function OperatorWord(op: Operator): Word {
    Word(OperatorType(op), "")
  }

  /** Expressions that have a text: identifiers that are no keywords, non-negative 64-bit numbers. */
  predicate Printable(e: Expr) {
    match e
    case Binary(l, _, r) => Printable(l) && Printable(r)
    case Column(name) => IsIdentifier(name)
    case Literal(v) => v.IntValue? ==> 0 <= v.n <= MAX_INT64
    case Star => false
  }

  function ExprWords(e: Expr): seq<Word>
    requires Printable(e)
  {
    match e
    case Binary(l, op, r) =>
      [SymbolWord(LPAREN)] + BareWords(e) + [SymbolWord(RPAREN)]
    case Column(name) => [Word(IDENT, name)]
    case Literal(v) =>
      match v {
        case IntValue(n) => [Word(NUMBER, Decimal(n))]
        case TextValue(s) => [Word(STRING, s)]
        case BoolValue(b) => [KeyWord(if b then TRUE else FALSE)]
        case NullValue => [KeyWord(NULL)]
      }
  }

  /** A binary expression without its own parentheses. */
  function BareWords(e: Expr): seq<Word>
    requires Printable(e) && e.Binary?
    decreases e, 0
  {
    ExprWords(e.left) + [OperatorWord(e.op)] + ExprWords(e.right)
  }

  function ExprsWords(es: seq<Expr>): seq<Word>
    requires es != [] && forall i :: 0 <= i < |es| ==> Printable(es[i])
    decreases |es|
  {
    if |es| == 1 then ExprWords(es[0]) else ExprWords(es[0]) + [SymbolWord(COMMA)] + ExprsWords(es[1..])
  }

  function NamesWords(names: seq<string>): seq<Word>
    requires names != []
    decreases |names|
  {
    if |names| == 1 then [Word(IDENT, names[0])]
    else [Word(IDENT, names[0])] + [SymbolWord(COMMA)] + NamesWords(names[1..])
  }

  function AssignmentWords(a: Assignment): seq<Word>
    requires Printable(a.value)
  {
    [Word(IDENT, a.column)] + [SymbolWord(EQ)] + ExprWords(a.value)
  }

  function AssignmentsWords(xs: seq<Assignment>): seq<Word>
    requires xs != [] && forall i :: 0 <= i < |xs| ==> Printable(xs[i].value)
    decreases |xs|
  {
    if |xs| == 1 then AssignmentWords(xs[0])
    else AssignmentWords(xs[0]) + [SymbolWord(COMMA)] + AssignmentsWords(xs[1..])
  }

  function TypeWord(t: ColumnType): Word {
    match t
    case TypeInt => KeyWord(INT)
    case TypeText => KeyWord(TEXT)
    case TypeBool => KeyWord(BOOL)
  }

  function PrimaryKeyWords(primaryKey: bool): seq<Word> {
    if primaryKey then [KeyWord(PRIMARY), KeyWord(KEY)] else []
  }

  function NotNullWords(notNull: bool): seq<Word> {
    if notNull then [KeyWord(NOT), KeyWord(NULL)] else []
  }

  function DefWords(d: ColumnDef): seq<Word> {
    [Word(IDENT, d.name), TypeWord(d.typ)] + PrimaryKeyWords(d.primaryKey) + NotNullWords(d.notNull)
  }

  function DefsWords(ds: seq<ColumnDef>): seq<Word>
    requires ds != []
    decreases |ds|
  {
    if |ds| == 1 then DefWords(ds[0]) else DefWords(ds[0]) + [SymbolWord(COMMA)] + DefsWords(ds[1..])
  }

  predicate Projectable(projection: seq<Expr>) {
    projection == [Star] || (projection != [] && forall i :: 0 <= i < |projection| ==> Printable(projection[i]))
  }

  /** The statements the grammar can express. */
  predicate WellFormed(s: Statement) {
    && IsIdentifier(s.table)
    && match s
       case CreateTable(_, defs) => defs != [] && forall i :: 0 <= i < |defs| ==> IsIdentifier(defs[i].name)
       case Insert(_, columns, values) =>
         && (forall i :: 0 <= i < |columns| ==> IsIdentifier(columns[i]))
         && values != [] && forall i :: 0 <= i < |values| ==> Printable(values[i])
       case Select(projection, _, where) =>
         && Projectable(projection)
         && (where.Some? ==> Printable(where.value))
       case Update(_, assignments, where) =>
         && assignments != []
         && (forall i :: 0 <= i < |assignments| ==>
               IsIdentifier(assignments[i].column) && Printable(assignments[i].value))
         && where.Some? && Printable(where.value)
       case Delete(_, where) => where.Some? && Printable(where.value)
  }

  function CreateWords(table: string, defs: seq<ColumnDef>): seq<Word>
    requires defs != []
  {
    [KeyWord(CREATE), KeyWord(TABLE), Word(IDENT, table)]
    + ([SymbolWord(LPAREN)] + DefsWords(defs) + [SymbolWord(RPAREN)])
  }

  function ColumnListWords(columns: seq<string>): seq<Word> {
    if columns == [] then [] else [SymbolWord(LPAREN)] + NamesWords(columns) + [SymbolWord(RPAREN)]
  }

  function ValuesWords(values: seq<Expr>): seq<Word>
    requires values != [] && forall i :: 0 <= i < |values| ==> Printable(values[i])
  {
    [KeyWord(VALUES)] + ([SymbolWord(LPAREN)] + ExprsWords(values) + [SymbolWord(RPAREN)])
  }

  function InsertWords(table: string, columns: seq<string>, values: seq<Expr>): seq<Word>
    requires values != [] && forall i :: 0 <= i < |values| ==> Printable(values[i])
  {
    [KeyWord(INSERT), KeyWord(INTO), Word(IDENT, table)] + (ColumnListWords(columns) + ValuesWords(values))
  }

  function ProjectionWords(projection: seq<Expr>): seq<Word>
    requires Projectable(projection)
  {
    if projection == [Star] then [SymbolWord(STAR)] else ExprsWords(projection)
  }

  function WhereWords(where: Option<Expr>): seq<Word>
    requires where.Some? ==> Printable(where.value)
  {
    if where.None? then [] else [KeyWord(WHERE)] + ExprWords(where.value)
  }

  function SelectFrame(projection: seq<Word>, table: string, where: seq<Word>): seq<Word> {
    [KeyWord(SELECT)] + projection + [KeyWord(FROM), Word(IDENT, table)] + where
  }

  function SelectWords(projection: seq<Expr>, table: string, where: Option<Expr>): seq<Word>
    requires Projectable(projection)
    requires where.Some? ==> Printable(where.value)
  {
    SelectFrame(ProjectionWords(projection), table, WhereWords(where))
  }

  function UpdateFrame(table: string, sets: seq<Word>, where: seq<Word>): seq<Word> {
    [KeyWord(UPDATE), Word(IDENT, table), KeyWord(SET)] + (sets + where)
  }

  function UpdateWords(table: string, assignments: seq<Assignment>, where: Option<Expr>): seq<Word>
    requires assignments != [] && forall i :: 0 <= i < |assignments| ==> Printable(assignments[i].value)
    requires where.Some? ==> Printable(where.value)
  {
    UpdateFrame(table, AssignmentsWords(assignments), WhereWords(where))
  }

  function DeleteWords(table: string, where: Option<Expr>): seq<Word>
    requires where.Some? ==> Printable(where.value)
  {
    [KeyWord(DELETE), KeyWord(FROM), Word(IDENT, table)] + WhereWords(where)
  }

  function StatementWords(s: Statement): seq<Word>
    requires WellFormed(s)
  {
    match s
    case CreateTable(table, defs) => CreateWords(table, defs)
    case Insert(table, columns, values) => InsertWords(table, columns, values)
    case Select(projection, table, where) => SelectWords(projection, table, where)
    case Update(table, assignments, where) => UpdateWords(table, assignments, where)
    case Delete(table, where) => DeleteWords(table, where)
  }

  /** The written word: keywords in any case, symbols as they are, the rest by its literal. */
  predicate Spells(w: Word, v: Word) {
    && w.typ == v.typ
    && match w.typ
       case Key(k) => ToLower(w.literal) == KeywordText(k)
       case Sym(s) => w.literal == SymbolText(s)
       case _ => w.literal == v.literal
  }

  predicate SpellsAll(ws: seq<Word>, vs: seq<Word>) {
    |ws| == |vs| && forall i :: 0 <= i < |ws| ==> Spells(ws[i], vs[i])
  }
}
