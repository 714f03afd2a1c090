/**
 The grammar of the dialect as concrete syntax trees: which tokens a tree stands
 for, and which statement it means. Comparisons do not chain, `AND` and `OR`
 bind alike and to the left, parentheses may enclose any expression.
 */
module SqlGrammar {
  import opened Common
  import opened SqlTokens
  import opened SqlAst
  import opened SqlParser
  import opened SqlPrinter

  // ---------------------------------------------------------------- expressions

  datatype Primary = Leaf(typ: TokenType, literal: string) | Paren(inner: Chain)

  datatype Compare = Single(only: Primary) | Pair(left: Primary, op: Operator, right: Primary)

  datatype Chain = One(item: Compare) | More(init: Chain, op: Operator, item: Compare)

  predicate IsConnective(op: Operator) {
    op.OpAnd? || op.OpOr?
  }

  /** A token that is an expression by itself; numbers have to fit 64 bits. */
  predicate LeafOk(typ: TokenType, literal: string) {
    match typ
    case NUMBER => AllDigits(literal) && DigitsValue(literal) <= MAX_INT64
    case STRING => true
    case IDENT => true
    case Key(k) => k.TRUE? || k.FALSE? || k.NULL?
    case _ => false
  }

  function LeafMeans(typ: TokenType, literal: string): Expr
    requires LeafOk(typ, literal)
  {
    match typ
    case NUMBER => Literal(IntValue(DigitsValue(literal)))
    case STRING => Literal(TextValue(literal))
    case IDENT => Column(literal)
    case Key(k) => Literal(if k.NULL? then NullValue else BoolValue(k.TRUE?))
  }

  /** How many tokens a tree takes. */
  function PrimarySize(x: Primary): nat {
    match x
    case Leaf(_, _) => 1
    case Paren(c) => ChainSize(c) + 2
  }

  function CompareSize(x: Compare): nat {
    match x
    case Single(a) => PrimarySize(a)
    case Pair(a, _, b) => PrimarySize(a) + 1 + PrimarySize(b)
  }

  function ChainSize(c: Chain): nat {
    match c
    case One(x) => CompareSize(x)
    case More(init, _, x) => ChainSize(init) + 1 + CompareSize(x)
  }

  /** The tree stands for the tokens from `p` on. */
  predicate PrimaryStands(ts: seq<Token>, p: nat, x: Primary)
    decreases x
  {
    match x
    case Leaf(typ, literal) => TypeAt(ts, p) == typ && LiteralAt(ts, p) == literal && LeafOk(typ, literal)
    case Paren(c) =>
      && TypeAt(ts, p) == Sym(LPAREN) && ChainStands(ts, p + 1, c)
      && TypeAt(ts, p + 1 + ChainSize(c)) == Sym(RPAREN)
  }

  predicate CompareStands(ts: seq<Token>, p: nat, x: Compare)
    decreases x
  {
    match x
    case Single(a) => PrimaryStands(ts, p, a)
    case Pair(a, op, b) =>
      && PrimaryStands(ts, p, a) && !IsConnective(op) && TypeAt(ts, p + PrimarySize(a)) == OperatorType(op)
      && PrimaryStands(ts, p + PrimarySize(a) + 1, b)
  }

  predicate ChainStands(ts: seq<Token>, p: nat, c: Chain)
    decreases c
  {
    match c
    case One(x) => CompareStands(ts, p, x)
    case More(init, op, x) =>
      && ChainStands(ts, p, init) && IsConnective(op) && TypeAt(ts, p + ChainSize(init)) == OperatorType(op)
      && CompareStands(ts, p + ChainSize(init) + 1, x)
  }

  function PrimaryMeans(x: Primary): Expr {
    match x
    case Leaf(typ, literal) => if LeafOk(typ, literal) then LeafMeans(typ, literal) else Star
    case Paren(c) => ChainMeans(c)
  }

  function CompareMeans(x: Compare): Expr {
    match x
    case Single(a) => PrimaryMeans(a)
    case Pair(a, op, b) => Binary(PrimaryMeans(a), op, PrimaryMeans(b))
  }

  function ChainMeans(c: Chain): Expr {
    match c
    case One(x) => CompareMeans(x)
    case More(init, op, x) => Binary(ChainMeans(init), op, CompareMeans(x))
  }

  const COMPARISONS: seq<TokenType> := [Sym(EQ), Sym(NEQ), Sym(LT), Sym(GT), Sym(LTE), Sym(GTE)]

  /** The token behind a chain would be read as part of it: a connective, or an operator behind a lone primary. */
  predicate Continued(c: Chain, next: TokenType) {
    next == Key(AND) || next == Key(OR) || (c.item.Single? && next in COMPARISONS)
  }

  // ---------------------------------------------------------------- lists, separated by commas

  datatype List<T> = Only(x: T) | Then(init: List<T>, x: T)

  function ChainsSize(xs: List<Chain>): nat {
    match xs
    case Only(x) => ChainSize(x)
    case Then(init, x) => ChainsSize(init) + 1 + ChainSize(x)
  }

  predicate ChainsStand(ts: seq<Token>, p: nat, xs: List<Chain>)
    decreases xs
  {
    match xs
    case Only(x) => ChainStands(ts, p, x)
    case Then(init, x) =>
      && ChainsStand(ts, p, init) && TypeAt(ts, p + ChainsSize(init)) == Sym(COMMA)
      && ChainStands(ts, p + ChainsSize(init) + 1, x)
  }

  function ChainsMean(xs: List<Chain>): seq<Expr> {
    match xs
    case Only(x) => [ChainMeans(x)]
    case Then(init, x) => ChainsMean(init) + [ChainMeans(x)]
  }

  function PrimariesSize(xs: List<Primary>): nat {
    match xs
    case Only(x) => PrimarySize(x)
    case Then(init, x) => PrimariesSize(init) + 1 + PrimarySize(x)
  }

  predicate PrimariesStand(ts: seq<Token>, p: nat, xs: List<Primary>)
    decreases xs
  {
    match xs
    case Only(x) => PrimaryStands(ts, p, x)
    case Then(init, x) =>
      && PrimariesStand(ts, p, init) && TypeAt(ts, p + PrimariesSize(init)) == Sym(COMMA)
      && PrimaryStands(ts, p + PrimariesSize(init) + 1, x)
  }

  function PrimariesMean(xs: List<Primary>): seq<Expr> {
    match xs
    case Only(x) => [PrimaryMeans(x)]
    case Then(init, x) => PrimariesMean(init) + [PrimaryMeans(x)]
  }

  predicate NameStands(ts: seq<Token>, p: nat, name: string) {
    TypeAt(ts, p) == IDENT && LiteralAt(ts, p) == name
  }

  function NamesSize(xs: List<string>): nat {
    match xs
    case Only(x) => 1
    case Then(init, x) => NamesSize(init) + 1 + 1
  }

  predicate NamesStand(ts: seq<Token>, p: nat, xs: List<string>)
    decreases xs
  {
    match xs
    case Only(x) => NameStands(ts, p, x)
    case Then(init, x) =>
      && NamesStand(ts, p, init) && TypeAt(ts, p + NamesSize(init)) == Sym(COMMA)
      && NameStands(ts, p + NamesSize(init) + 1, x)
  }

  function NamesMean(xs: List<string>): seq<string> {
    match xs
    case Only(x) => [x]
    case Then(init, x) => NamesMean(init) + [x]
  }

  datatype Set = Set(column: string, value: Chain)

  predicate SetStands(ts: seq<Token>, p: nat, x: Set) {
    NameStands(ts, p, x.column) && TypeAt(ts, p + 1) == Sym(EQ) && ChainStands(ts, p + 2, x.value)
  }

  function SetsSize(xs: List<Set>): nat {
    match xs
    case Only(x) => 2 + ChainSize(x.value)
    case Then(init, x) => SetsSize(init) + 1 + (2 + ChainSize(x.value))
  }

  predicate SetsStand(ts: seq<Token>, p: nat, xs: List<Set>)
    decreases xs
  {
    match xs
    case Only(x) => SetStands(ts, p, x)
    case Then(init, x) =>
      && SetsStand(ts, p, init) && TypeAt(ts, p + SetsSize(init)) == Sym(COMMA)
      && SetStands(ts, p + SetsSize(init) + 1, x)
  }

  function SetsMean(xs: List<Set>): seq<Assignment> {
    match xs
    case Only(x) => [Assignment(x.column, ChainMeans(x.value))]
    case Then(init, x) => SetsMean(init) + [Assignment(x.column, ChainMeans(x.value))]
  }

  /** A column: its name, its type and its constraints in any order and number. */
  datatype Constraint = IsKey | IsNotNull

  datatype Col = Col(name: string, typ: ColumnType, constraints: seq<Constraint>)

  predicate ConstraintStands(ts: seq<Token>, p: nat, c: Constraint) {
    match c
    case IsKey => TypeAt(ts, p) == Key(PRIMARY) && TypeAt(ts, p + 1) == Key(KEY)
    case IsNotNull => TypeAt(ts, p) == Key(NOT) && TypeAt(ts, p + 1) == Key(NULL)
  }

  predicate ColStands(ts: seq<Token>, p: nat, x: Col) {
    && NameStands(ts, p, x.name) && TypeAt(ts, p + 1) == TypeWord(x.typ).typ
    && forall i :: 0 <= i < |x.constraints| ==> ConstraintStands(ts, p + 2 + 2 * i, x.constraints[i])
  }

  function ColMeans(x: Col): ColumnDef {
    ColumnDef(x.name, x.typ, IsKey in x.constraints, IsNotNull in x.constraints)
  }

  function ColsSize(xs: List<Col>): nat {
    match xs
    case Only(x) => 2 + 2 * |x.constraints|
    case Then(init, x) => ColsSize(init) + 1 + (2 + 2 * |x.constraints|)
  }

  predicate ColsStand(ts: seq<Token>, p: nat, xs: List<Col>)
    decreases xs
  {
    match xs
    case Only(x) => ColStands(ts, p, x)
    case Then(init, x) =>
      && ColsStand(ts, p, init) && TypeAt(ts, p + ColsSize(init)) == Sym(COMMA)
      && ColStands(ts, p + ColsSize(init) + 1, x)
  }

  function ColsMean(xs: List<Col>): seq<ColumnDef> {
    match xs
    case Only(x) => [ColMeans(x)]
    case Then(init, x) => ColsMean(init) + [ColMeans(x)]
  }

  // ---------------------------------------------------------------- statements

  /** A projection of `None` is the star; an insert may be without a column list. */
  datatype Sentence =
    | CreateSentence(table: string, cols: List<Col>)
    | InsertSentence(table: string, names: Option<List<string>>, values: List<Chain>)
    | SelectSentence(projection: Option<List<Primary>>, table: string, where: Option<Chain>)
    | UpdateSentence(table: string, sets: List<Set>, condition: Chain)
    | DeleteSentence(table: string, condition: Chain)

  predicate CreateStands(ts: seq<Token>, table: string, cols: List<Col>) {
    && TypeAt(ts, 0) == Key(CREATE) && TypeAt(ts, 1) == Key(TABLE) && NameStands(ts, 2, table)
    && TypeAt(ts, 3) == Sym(LPAREN) && ColsStand(ts, 4, cols) && TypeAt(ts, 4 + ColsSize(cols)) == Sym(RPAREN)
  }

  function NameListSize(names: Option<List<string>>): nat {
    if names.None? then 0 else NamesSize(names.value) + 2
  }

  function NameListMeans(names: Option<List<string>>): seq<string> {
    if names.None? then [] else NamesMean(names.value)
  }

  predicate NameListStands(ts: seq<Token>, p: nat, names: Option<List<string>>) {
    names.Some? ==>
      && TypeAt(ts, p) == Sym(LPAREN) && NamesStand(ts, p + 1, names.value)
      && TypeAt(ts, p + 1 + NamesSize(names.value)) == Sym(RPAREN)
  }

  predicate InsertStands(ts: seq<Token>, table: string, names: Option<List<string>>, values: List<Chain>) {
    var q := 3 + NameListSize(names);
    && TypeAt(ts, 0) == Key(INSERT) && TypeAt(ts, 1) == Key(INTO) && NameStands(ts, 2, table)
    && NameListStands(ts, 3, names)
    && TypeAt(ts, q) == Key(VALUES) && TypeAt(ts, q + 1) == Sym(LPAREN) && ChainsStand(ts, q + 2, values)
    && TypeAt(ts, q + 2 + ChainsSize(values)) == Sym(RPAREN)
  }

  function ProjectionSize(projection: Option<List<Primary>>): nat {
    if projection.None? then 1 else PrimariesSize(projection.value)
  }

  predicate ProjectionStands(ts: seq<Token>, p: nat, projection: Option<List<Primary>>) {
    if projection.None? then TypeAt(ts, p) == Sym(STAR) else PrimariesStand(ts, p, projection.value)
  }

  function ProjectionMeans(projection: Option<List<Primary>>): seq<Expr> {
    if projection.None? then [Star] else PrimariesMean(projection.value)
  }

  function WhereMeans(where: Option<Chain>): Option<Expr> {
    if where.None? then None else Some(ChainMeans(where.value))
  }

  predicate SelectStands(ts: seq<Token>, projection: Option<List<Primary>>, table: string, where: Option<Chain>) {
    var q := 1 + ProjectionSize(projection);
    && TypeAt(ts, 0) == Key(SELECT) && ProjectionStands(ts, 1, projection)
    && TypeAt(ts, q) == Key(FROM) && NameStands(ts, q + 1, table)
    && (where.Some? ==> TypeAt(ts, q + 2) == Key(WHERE) && ChainStands(ts, q + 3, where.value))
  }

  predicate UpdateStands(ts: seq<Token>, table: string, sets: List<Set>, condition: Chain) {
    && TypeAt(ts, 0) == Key(UPDATE) && NameStands(ts, 1, table) && TypeAt(ts, 2) == Key(SET)
    && SetsStand(ts, 3, sets) && TypeAt(ts, 3 + SetsSize(sets)) == Key(WHERE)
    && ChainStands(ts, 4 + SetsSize(sets), condition)
  }

  predicate DeleteStands(ts: seq<Token>, table: string, condition: Chain) {
    && TypeAt(ts, 0) == Key(DELETE) && TypeAt(ts, 1) == Key(FROM) && NameStands(ts, 2, table)
    && TypeAt(ts, 3) == Key(WHERE) && ChainStands(ts, 4, condition)
  }

  /** The sentence stands for the first tokens. */
  predicate Stands(ts: seq<Token>, x: Sentence) {
    match x
    case CreateSentence(table, cols) => CreateStands(ts, table, cols)
    case InsertSentence(table, names, values) => InsertStands(ts, table, names, values)
    case SelectSentence(projection, table, where) => SelectStands(ts, projection, table, where)
    case UpdateSentence(table, sets, condition) => UpdateStands(ts, table, sets, condition)
    case DeleteSentence(table, condition) => DeleteStands(ts, table, condition)
  }

  function Means(x: Sentence): Statement {
    match x
    case CreateSentence(table, cols) => CreateTable(table, ColsMean(cols))
    case InsertSentence(table, names, values) => Insert(table, NameListMeans(names), ChainsMean(values))
    case SelectSentence(projection, table, where) => Select(ProjectionMeans(projection), table, WhereMeans(where))
    case UpdateSentence(table, sets, condition) => Update(table, SetsMean(sets), Some(ChainMeans(condition)))
    case DeleteSentence(table, condition) => Delete(table, Some(ChainMeans(condition)))
  }

  /** The token behind the sentence would be read as part of it. */
  predicate GoesOn(ts: seq<Token>, x: Sentence) {
    match x
    case CreateSentence(_, _) => false
    case InsertSentence(_, _, _) => false
    case SelectSentence(projection, _, where) =>
      var q := 3 + ProjectionSize(projection);
      if where.None? then TypeAt(ts, q) == Key(WHERE)
      else Continued(where.value, TypeAt(ts, q + 1 + ChainSize(where.value)))
    case UpdateSentence(_, sets, condition) =>
      Continued(condition, TypeAt(ts, 4 + SetsSize(sets) + ChainSize(condition)))
    case DeleteSentence(_, condition) => Continued(condition, TypeAt(ts, 4 + ChainSize(condition)))
  }
}
