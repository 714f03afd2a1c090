/** Every tree of the grammar is read: from the tokens it stands for the parser gets what the tree means. */
module SqlGrammarReads {
  import opened Common
  import opened SqlTokens
  import opened SqlAst
  import opened SqlParser
  import opened SqlPrinter
  import opened SqlGrammar

  // ---------------------------------------------------------------- expressions

  lemma {:induction false} OperatorTokens(t: TokenType, op: Operator)
    ensures ComparisonOf(t) == Some(op) <==> t == OperatorType(op) && !IsConnective(op)
    ensures ConnectiveOf(t) == Some(op) <==> t == OperatorType(op) && IsConnective(op)
    ensures ComparisonOf(t).Some? <==> t in COMPARISONS
    ensures ConnectiveOf(t).Some? <==> t == Key(AND) || t == Key(OR)
  {
  }

  lemma {:induction false} LeafReads(ts: seq<Token>, p: nat, typ: TokenType, literal: string)
    requires PrimaryStands(ts, p, Leaf(typ, literal))
    ensures PrimaryAt(ts, p) == Some((LeafMeans(typ, literal), p + 1))
  {
  }

  /** The trees stand from `p` to `q` and mean `e`; no operator follows a lone primary. */
  predicate PrimaryCovers(ts: seq<Token>, p: nat, x: Primary, e: Expr, q: nat) {
    PrimaryStands(ts, p, x) && PrimaryMeans(x) == e && p + PrimarySize(x) == q
  }

  predicate CompareCovers(ts: seq<Token>, p: nat, x: Compare, e: Expr, q: nat) {
    && CompareStands(ts, p, x) && CompareMeans(x) == e && p + CompareSize(x) == q
    && (x.Single? ==> TypeAt(ts, q) !in COMPARISONS)
  }

  predicate ChainCovers(ts: seq<Token>, p: nat, c: Chain, e: Expr, q: nat) {
    && ChainStands(ts, p, c) && ChainMeans(c) == e && p + ChainSize(c) == q
    && (c.item.Single? ==> TypeAt(ts, q) !in COMPARISONS)
  }

  /** The parser reads `e` from `p` to `q`. */
  predicate ReadsPrimary(ts: seq<Token>, p: nat, e: Expr, q: nat) {
    PrimaryAt(ts, p) == Some((e, q))
  }

  predicate ReadsCompare(ts: seq<Token>, p: nat, e: Expr, q: nat) {
    CompareAt(ts, p) == Some((e, q))
  }

  /** It reads `e` up to `q`, and whatever is joined to it from there. */
  predicate ReadsChain(ts: seq<Token>, p: nat, e: Expr, q: nat) {
    p < q <= |ts| && ExprAt(ts, p) == JoinedAt(ts, e, q)
  }

  lemma {:induction false} ParenReads(ts: seq<Token>, p: nat, e: Expr, q: nat)
    requires TypeAt(ts, p) == Sym(LPAREN) && TypeAt(ts, q) == Sym(RPAREN) && ReadsChain(ts, p + 1, e, q)
    ensures ReadsPrimary(ts, p, e, q + 1)
  {
  }

  lemma {:induction false} ParenParts(ts: seq<Token>, p: nat, c: Chain, e: Expr, q: nat) returns (m: nat)
    requires PrimaryCovers(ts, p, Paren(c), e, q)
    ensures q == m + 1 && TypeAt(ts, p) == Sym(LPAREN) && TypeAt(ts, m) == Sym(RPAREN)
    ensures ChainCovers(ts, p + 1, c, e, m)
  {
    m := p + 1 + ChainSize(c);
  }

  lemma {:induction false} PrimaryIsRead(ts: seq<Token>, p: nat, x: Primary, e: Expr, q: nat)
    requires PrimaryCovers(ts, p, x, e, q)
    ensures ReadsPrimary(ts, p, e, q)
    decreases x
  {
    match x
    case Leaf(typ, literal) => LeafReads(ts, p, typ, literal);
    case Paren(c) =>
      var m := ParenParts(ts, p, c, e, q);
      ChainIsRead(ts, p + 1, c, e, m);
      ParenReads(ts, p, e, m);
  }

  lemma {:induction false} SingleReads(ts: seq<Token>, p: nat, e: Expr, q: nat)
    requires ReadsPrimary(ts, p, e, q) && TypeAt(ts, q) !in COMPARISONS
    ensures ReadsCompare(ts, p, e, q)
  {
    OperatorTokens(TypeAt(ts, q), OpEq);
  }

  lemma {:induction false} PairReads(ts: seq<Token>, p: nat, a: Expr, m: nat, op: Operator, b: Expr, q: nat)
    requires ReadsPrimary(ts, p, a, m) && ReadsPrimary(ts, m + 1, b, q)
    requires TypeAt(ts, m) == OperatorType(op) && !IsConnective(op)
    ensures ReadsCompare(ts, p, Binary(a, op, b), q)
  {
    OperatorTokens(TypeAt(ts, m), op);
  }

  lemma {:induction false} CompareIsRead(ts: seq<Token>, p: nat, x: Compare, e: Expr, q: nat)
    requires CompareCovers(ts, p, x, e, q)
    ensures ReadsCompare(ts, p, e, q)
    decreases x
  {
    match x
    case Single(a) =>
      PrimaryIsRead(ts, p, a, e, q);
      SingleReads(ts, p, e, q);
    case Pair(a, op, b) =>
      var m := p + PrimarySize(a);
      PrimaryIsRead(ts, p, a, e.left, m);
      PrimaryIsRead(ts, m + 1, b, e.right, q);
      PairReads(ts, p, e.left, m, op, e.right, q);
  }

  lemma {:induction false} ChainStarts(ts: seq<Token>, p: nat, e: Expr, q: nat)
    requires ReadsCompare(ts, p, e, q)
    ensures ReadsChain(ts, p, e, q)
  {
  }

  lemma {:induction false} ChainGoesOn(ts: seq<Token>, p: nat, left: Expr, m: nat, op: Operator, e: Expr, q: nat)
    requires ReadsChain(ts, p, left, m) && ReadsCompare(ts, m + 1, e, q)
    requires TypeAt(ts, m) == OperatorType(op) && IsConnective(op)
    ensures ReadsChain(ts, p, Binary(left, op, e), q)
  {
    OperatorTokens(TypeAt(ts, m), op);
  }

  /** The parts of a longer chain, with the connective at `m`. */
  lemma {:induction false} MoreParts(
    ts: seq<Token>, p: nat, init: Chain, op: Operator, x: Compare, e: Expr, q: nat) returns (m: nat)
    requires ChainCovers(ts, p, More(init, op, x), e, q)
    ensures e.Binary? && e.op == op && IsConnective(op) && TypeAt(ts, m) == OperatorType(op)
    ensures ChainCovers(ts, p, init, e.left, m) && CompareCovers(ts, m + 1, x, e.right, q)
  {
    m := p + ChainSize(init);
    assert OperatorType(op) !in COMPARISONS;
  }

  lemma {:induction false} ChainIsRead(ts: seq<Token>, p: nat, c: Chain, e: Expr, q: nat)
    requires ChainCovers(ts, p, c, e, q)
    ensures ReadsChain(ts, p, e, q)
    decreases c
  {
    match c
    case One(x) =>
      CompareIsRead(ts, p, x, e, q);
      ChainStarts(ts, p, e, q);
    case More(init, op, x) =>
      var m := MoreParts(ts, p, init, op, x, e, q);
      ChainIsRead(ts, p, init, e.left, m);
      CompareIsRead(ts, m + 1, x, e.right, q);
      ChainGoesOn(ts, p, e.left, m, op, e.right, q);
  }

  lemma {:induction false} PrimaryReads(ts: seq<Token>, p: nat, x: Primary)
    requires PrimaryStands(ts, p, x)
    ensures PrimaryAt(ts, p) == Some((PrimaryMeans(x), p + PrimarySize(x)))
  {
    PrimaryIsRead(ts, p, x, PrimaryMeans(x), p + PrimarySize(x));
  }

  lemma {:induction false} ExprReads(ts: seq<Token>, p: nat, c: Chain)
    requires ChainStands(ts, p, c) && !Continued(c, TypeAt(ts, p + ChainSize(c)))
    ensures ExprAt(ts, p) == Some((ChainMeans(c), p + ChainSize(c)))
  {
    ChainIsRead(ts, p, c, ChainMeans(c), p + ChainSize(c));
    OperatorTokens(TypeAt(ts, p + ChainSize(c)), OpAnd);
  }

  // ---------------------------------------------------------------- lists

  /** A token that ends every expression and every list. */
  predicate Closes(t: TokenType) {
    t == Sym(COMMA) || t == Sym(RPAREN) || t == Key(WHERE)
  }

  lemma {:induction false} ClosedReads(ts: seq<Token>, p: nat, c: Chain)
    requires ChainStands(ts, p, c) && Closes(TypeAt(ts, p + ChainSize(c)))
    ensures ExprAt(ts, p) == Some((ChainMeans(c), p + ChainSize(c)))
  {
    ExprReads(ts, p, c);
  }

  lemma {:induction false} ChainsStep(ts: seq<Token>, acc: seq<Expr>, p: nat, e: Expr, q: nat)
    requires ExprAt(ts, p) == Some((e, q))
    ensures ExprsAt(ts, acc, p) ==
            if TypeAt(ts, q) == Sym(COMMA) then ExprsAt(ts, acc + [e], q + 1) else Some((acc + [e], q))
  {
  }

  /** The list is read up to the token at `q`. */
  lemma {:induction false} ChainsReach(ts: seq<Token>, p: nat, xs: List<Chain>, q: nat)
    requires ChainsStand(ts, p, xs) && q == p + ChainsSize(xs) && Closes(TypeAt(ts, q))
    ensures ExprsAt(ts, [], p) ==
            if TypeAt(ts, q) == Sym(COMMA) then ExprsAt(ts, ChainsMean(xs), q + 1) else Some((ChainsMean(xs), q))
    decreases xs
  {
    match xs
    case Only(x) =>
      ClosedReads(ts, p, x);
      ChainsStep(ts, [], p, ChainMeans(x), q);
      assert [] + [ChainMeans(x)] == [ChainMeans(x)];
    case Then(init, x) =>
      var r := p + ChainsSize(init);
      ChainsReach(ts, p, init, r);
      ClosedReads(ts, r + 1, x);
      ChainsStep(ts, ChainsMean(init), r + 1, ChainMeans(x), q);
  }

  lemma {:induction false} PrimariesStep(ts: seq<Token>, acc: seq<Expr>, p: nat, e: Expr, q: nat)
    requires PrimaryAt(ts, p) == Some((e, q))
    ensures PrimariesAt(ts, acc, p) ==
            if TypeAt(ts, q) == Sym(COMMA) then PrimariesAt(ts, acc + [e], q + 1) else Some((acc + [e], q))
  {
  }

  /** The list is read up to the token at `q`. */
  lemma {:induction false} PrimariesReach(ts: seq<Token>, p: nat, xs: List<Primary>, q: nat)
    requires PrimariesStand(ts, p, xs) && q == p + PrimariesSize(xs)
    ensures PrimariesAt(ts, [], p) ==
            if TypeAt(ts, q) == Sym(COMMA) then PrimariesAt(ts, PrimariesMean(xs), q + 1)
            else Some((PrimariesMean(xs), q))
    decreases xs
  {
    match xs
    case Only(x) =>
      PrimaryReads(ts, p, x);
      PrimariesStep(ts, [], p, PrimaryMeans(x), q);
      assert [] + [PrimaryMeans(x)] == [PrimaryMeans(x)];
    case Then(init, x) =>
      var r := p + PrimariesSize(init);
      PrimariesReach(ts, p, init, r);
      PrimaryReads(ts, r + 1, x);
      PrimariesStep(ts, PrimariesMean(init), r + 1, PrimaryMeans(x), q);
  }

  lemma {:induction false} NamesStep(ts: seq<Token>, acc: seq<string>, p: nat, name: string)
    requires NameStands(ts, p, name)
    ensures NamesAt(ts, acc, p) ==
            if TypeAt(ts, p + 1) == Sym(COMMA) then NamesAt(ts, acc + [name], p + 2) else Some((acc + [name], p + 1))
  {
  }

  lemma {:induction false} NamesReach(ts: seq<Token>, p: nat, xs: List<string>, q: nat)
    requires NamesStand(ts, p, xs) && q == p + NamesSize(xs)
    ensures NamesAt(ts, [], p) ==
            if TypeAt(ts, q) == Sym(COMMA) then NamesAt(ts, NamesMean(xs), q + 1) else Some((NamesMean(xs), q))
    decreases xs
  {
    match xs
    case Only(x) =>
      NamesStep(ts, [], p, x);
      assert [] + [x] == [x];
    case Then(init, x) =>
      var r := p + NamesSize(init);
      NamesReach(ts, p, init, r);
      NamesStep(ts, NamesMean(init), r + 1, x);
  }

  lemma {:induction false} SetReads(ts: seq<Token>, p: nat, x: Set)
    requires SetStands(ts, p, x) && Closes(TypeAt(ts, p + 2 + ChainSize(x.value)))
    ensures AssignmentAt(ts, p) == Some((Assignment(x.column, ChainMeans(x.value)), p + 2 + ChainSize(x.value)))
  {
    ClosedReads(ts, p + 2, x.value);
  }

  lemma {:induction false} SetsStep(ts: seq<Token>, acc: seq<Assignment>, p: nat, e: Assignment, q: nat)
    requires AssignmentAt(ts, p) == Some((e, q))
    ensures AssignmentsAt(ts, acc, p) ==
            if TypeAt(ts, q) == Sym(COMMA) then AssignmentsAt(ts, acc + [e], q + 1) else Some((acc + [e], q))
  {
  }

  /** The list is read up to the token at `q`. */
  lemma {:induction false} SetsReach(ts: seq<Token>, p: nat, xs: List<Set>, q: nat)
    requires SetsStand(ts, p, xs) && q == p + SetsSize(xs) && Closes(TypeAt(ts, q))
    ensures AssignmentsAt(ts, [], p) ==
            if TypeAt(ts, q) == Sym(COMMA) then AssignmentsAt(ts, SetsMean(xs), q + 1) else Some((SetsMean(xs), q))
    decreases xs
  {
    match xs
    case Only(x) =>
      SetReads(ts, p, x);
      SetsStep(ts, [], p, Assignment(x.column, ChainMeans(x.value)), q);
      assert [] + [Assignment(x.column, ChainMeans(x.value))] == [Assignment(x.column, ChainMeans(x.value))];
    case Then(init, x) =>
      var r := p + SetsSize(init);
      SetsReach(ts, p, init, r);
      SetReads(ts, r + 1, x);
      SetsStep(ts, SetsMean(init), r + 1, Assignment(x.column, ChainMeans(x.value)), q);
  }

  lemma {:induction false} ConstraintStep(ts: seq<Token>, def: ColumnDef, p: nat, c: Constraint)
    requires ConstraintStands(ts, p, c)
    ensures p + 2 <= |ts|
    ensures ConstraintsAt(ts, def, p) ==
            ConstraintsAt(ts, if c.IsKey? then def.(primaryKey := true) else def.(notNull := true), p + 2)
  {
  }

  /** The column with the first `i` constraints. */
  function ColUpTo(x: Col, i: nat): ColumnDef
    requires i <= |x.constraints|
  {
    ColumnDef(x.name, x.typ, IsKey in x.constraints[..i], IsNotNull in x.constraints[..i])
  }

  lemma {:induction false} ColOneMore(x: Col, i: nat)
    requires i < |x.constraints|
    ensures ColUpTo(x, i + 1) ==
            if x.constraints[i].IsKey? then ColUpTo(x, i).(primaryKey := true) else ColUpTo(x, i).(notNull := true)
  {
    assert x.constraints[..i + 1] == x.constraints[..i] + [x.constraints[i]];
  }

  /** The constraints from the `i`-th on are added to those before. */
  lemma {:induction false} ConstraintsRead(ts: seq<Token>, p: nat, x: Col, i: nat)
    requires ColStands(ts, p, x) && i <= |x.constraints| && Closes(TypeAt(ts, p + 2 + 2 * |x.constraints|))
    ensures p + 2 + 2 * i <= |ts|
    ensures ConstraintsAt(ts, ColUpTo(x, i), p + 2 + 2 * i) == Some((ColMeans(x), p + 2 + 2 * |x.constraints|))
    decreases |x.constraints| - i
  {
    if i < |x.constraints| {
      ConstraintsRead(ts, p, x, i + 1);
      ConstraintStep(ts, ColUpTo(x, i), p + 2 + 2 * i, x.constraints[i]);
      ColOneMore(x, i);
    } else {
      assert x.constraints[..i] == x.constraints;
    }
  }

  lemma {:induction false} ColReads(ts: seq<Token>, p: nat, x: Col)
    requires ColStands(ts, p, x) && Closes(TypeAt(ts, p + 2 + 2 * |x.constraints|))
    ensures ColumnDefAt(ts, p) == Some((ColMeans(x), p + 2 + 2 * |x.constraints|))
  {
    ConstraintsRead(ts, p, x, 0);
  }

  lemma {:induction false} ColsStep(ts: seq<Token>, acc: seq<ColumnDef>, p: nat, e: ColumnDef, q: nat)
    requires ColumnDefAt(ts, p) == Some((e, q))
    ensures ColumnDefsAt(ts, acc, p) ==
            if TypeAt(ts, q) == Sym(COMMA) then ColumnDefsAt(ts, acc + [e], q + 1) else Some((acc + [e], q))
  {
  }

  /** The list is read up to the token at `q`. */
  lemma {:induction false} ColsReach(ts: seq<Token>, p: nat, xs: List<Col>, q: nat)
    requires ColsStand(ts, p, xs) && q == p + ColsSize(xs) && Closes(TypeAt(ts, q))
    ensures ColumnDefsAt(ts, [], p) ==
            if TypeAt(ts, q) == Sym(COMMA) then ColumnDefsAt(ts, ColsMean(xs), q + 1) else Some((ColsMean(xs), q))
    decreases xs
  {
    match xs
    case Only(x) =>
      ColReads(ts, p, x);
      ColsStep(ts, [], p, ColMeans(x), q);
      assert [] + [ColMeans(x)] == [ColMeans(x)];
    case Then(init, x) =>
      var r := p + ColsSize(init);
      ColsReach(ts, p, init, r);
      ColReads(ts, r + 1, x);
      ColsStep(ts, ColsMean(init), r + 1, ColMeans(x), q);
  }

  // ---------------------------------------------------------------- statements

  lemma {:induction false} CreateReads(ts: seq<Token>, table: string, cols: List<Col>)
    requires CreateStands(ts, table, cols)
    ensures CreateTableAt(ts) == Some(CreateTable(table, ColsMean(cols)))
  {
    ColsReach(ts, 4, cols, 4 + ColsSize(cols));
  }

  lemma {:induction false} NameListReads(ts: seq<Token>, names: Option<List<string>>)
    requires 3 <= |ts| && NameListStands(ts, 3, names) && TypeAt(ts, 3 + NameListSize(names)) == Key(VALUES)
    ensures InsertColumnsAt(ts, 3) == Some((NameListMeans(names), 3 + NameListSize(names)))
  {
    if names.Some? {
      NamesReach(ts, 4, names.value, 4 + NamesSize(names.value));
    }
  }

  lemma {:induction false} InsertReads(ts: seq<Token>, table: string, names: Option<List<string>>, values: List<Chain>)
    requires InsertStands(ts, table, names, values)
    ensures InsertAt(ts) == Some(Insert(table, NameListMeans(names), ChainsMean(values)))
  {
    var q := 3 + NameListSize(names);
    NameListReads(ts, names);
    ChainsReach(ts, q + 2, values, q + 2 + ChainsSize(values));
  }

  lemma {:induction false} ProjectionReads(ts: seq<Token>, projection: Option<List<Primary>>)
    requires ProjectionStands(ts, 1, projection) && TypeAt(ts, 1 + ProjectionSize(projection)) == Key(FROM)
    ensures ProjectionAt(ts, 1) == Some((ProjectionMeans(projection), 1 + ProjectionSize(projection)))
  {
    if projection.Some? {
      PrimariesReach(ts, 1, projection.value, 1 + PrimariesSize(projection.value));
      FirstIsNoStar(ts, 1, projection.value);
    }
  }

  lemma {:induction false} FirstIsNoStar(ts: seq<Token>, p: nat, xs: List<Primary>)
    requires PrimariesStand(ts, p, xs)
    ensures TypeAt(ts, p) != Sym(STAR)
    decreases xs
  {
    if xs.Then? {
      FirstIsNoStar(ts, p, xs.init);
    }
  }

  lemma {:induction false} SelectReads(
    ts: seq<Token>, projection: Option<List<Primary>>, table: string, where: Option<Chain>)
    requires SelectStands(ts, projection, table, where) && !GoesOn(ts, SelectSentence(projection, table, where))
    ensures SelectAt(ts) == Some(Select(ProjectionMeans(projection), table, WhereMeans(where)))
  {
    ProjectionReads(ts, projection);
    if where.Some? {
      ExprReads(ts, 4 + ProjectionSize(projection), where.value);
    }
  }

  lemma {:induction false} UpdateReads(ts: seq<Token>, table: string, sets: List<Set>, condition: Chain)
    requires UpdateStands(ts, table, sets, condition) && !GoesOn(ts, UpdateSentence(table, sets, condition))
    ensures UpdateAt(ts) == Some(Update(table, SetsMean(sets), Some(ChainMeans(condition))))
  {
    SetsReach(ts, 3, sets, 3 + SetsSize(sets));
    ExprReads(ts, 4 + SetsSize(sets), condition);
  }

  lemma {:induction false} DeleteReads(ts: seq<Token>, table: string, condition: Chain)
    requires DeleteStands(ts, table, condition) && !GoesOn(ts, DeleteSentence(table, condition))
    ensures DeleteAt(ts) == Some(Delete(table, Some(ChainMeans(condition))))
  {
    ExprReads(ts, 4, condition);
  }

  /** The first token selects the production. */
  lemma {:induction false} Dispatch(ts: seq<Token>, r: Statement)
    ensures TypeAt(ts, 0) == Key(CREATE) && CreateTableAt(ts) == Some(r) ==> StatementAt(ts) == Some(r)
    ensures TypeAt(ts, 0) == Key(INSERT) && InsertAt(ts) == Some(r) ==> StatementAt(ts) == Some(r)
    ensures TypeAt(ts, 0) == Key(SELECT) && SelectAt(ts) == Some(r) ==> StatementAt(ts) == Some(r)
    ensures TypeAt(ts, 0) == Key(UPDATE) && UpdateAt(ts) == Some(r) ==> StatementAt(ts) == Some(r)
    ensures TypeAt(ts, 0) == Key(DELETE) && DeleteAt(ts) == Some(r) ==> StatementAt(ts) == Some(r)
  {
  }

  predicate Parses(ts: seq<Token>, s: Statement) {
    StatementAt(ts) == Some(s)
  }

  lemma {:induction false} CreateParses(ts: seq<Token>, table: string, cols: List<Col>)
    requires CreateStands(ts, table, cols)
    ensures Parses(ts, CreateTable(table, ColsMean(cols)))
  {
    CreateReads(ts, table, cols);
    Dispatch(ts, CreateTable(table, ColsMean(cols)));
  }

  lemma {:induction false} InsertParses(ts: seq<Token>, table: string, names: Option<List<string>>, values: List<Chain>)
    requires InsertStands(ts, table, names, values)
    ensures Parses(ts, Insert(table, NameListMeans(names), ChainsMean(values)))
  {
    InsertReads(ts, table, names, values);
    Dispatch(ts, Insert(table, NameListMeans(names), ChainsMean(values)));
  }

  lemma {:induction false} SelectParses(
    ts: seq<Token>, projection: Option<List<Primary>>, table: string, where: Option<Chain>)
    requires SelectStands(ts, projection, table, where) && !GoesOn(ts, SelectSentence(projection, table, where))
    ensures Parses(ts, Select(ProjectionMeans(projection), table, WhereMeans(where)))
  {
    SelectReads(ts, projection, table, where);
    Dispatch(ts, Select(ProjectionMeans(projection), table, WhereMeans(where)));
  }

  lemma {:induction false} UpdateParses(ts: seq<Token>, table: string, sets: List<Set>, condition: Chain)
    requires UpdateStands(ts, table, sets, condition) && !GoesOn(ts, UpdateSentence(table, sets, condition))
    ensures Parses(ts, Update(table, SetsMean(sets), Some(ChainMeans(condition))))
  {
    UpdateReads(ts, table, sets, condition);
    Dispatch(ts, Update(table, SetsMean(sets), Some(ChainMeans(condition))));
  }

  lemma {:induction false} DeleteParses(ts: seq<Token>, table: string, condition: Chain)
    requires DeleteStands(ts, table, condition) && !GoesOn(ts, DeleteSentence(table, condition))
    ensures Parses(ts, Delete(table, Some(ChainMeans(condition))))
  {
    DeleteReads(ts, table, condition);
    Dispatch(ts, Delete(table, Some(ChainMeans(condition))));
  }

  /** A sentence is read as what it means, whatever follows that does not continue it. */
  lemma {:induction false} SentenceReads(ts: seq<Token>, x: Sentence)
    requires Stands(ts, x) && !GoesOn(ts, x)
    ensures Parses(ts, Means(x))
  {
    match x
    case CreateSentence(table, cols) => CreateParses(ts, table, cols);
    case InsertSentence(table, names, values) => InsertParses(ts, table, names, values);
    case SelectSentence(projection, table, where) => SelectParses(ts, projection, table, where);
    case UpdateSentence(table, sets, condition) => UpdateParses(ts, table, sets, condition);
    case DeleteSentence(table, condition) => DeleteParses(ts, table, condition);
  }
}
