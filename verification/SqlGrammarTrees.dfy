/** Whatever the parser reads is a tree of the grammar, and what it gets is what the tree means. */
module SqlGrammarTrees {
  import opened Common
  import opened SqlTokens
  import opened SqlAst
  import opened SqlParser
  import opened SqlGrammar
  import opened SqlGrammarReads
  import SqlLexer

  // ---------------------------------------------------------------- expressions

  lemma {:induction false} LeafTree(ts: seq<Token>, p: nat)
    requires PrimaryAt(ts, p).Some? && TypeAt(ts, p) != Sym(LPAREN)
    ensures LeafOk(TypeAt(ts, p), LiteralAt(ts, p))
    ensures PrimaryAt(ts, p).value == (LeafMeans(TypeAt(ts, p), LiteralAt(ts, p)), p + 1)
  {
  }

  lemma {:induction false} PrimaryTree(ts: seq<Token>, p: nat) returns (x: Primary)
    requires PrimaryAt(ts, p).Some?
    ensures PrimaryStands(ts, p, x) && PrimaryAt(ts, p).value == (PrimaryMeans(x), p + PrimarySize(x))
    decreases |ts| - p, 0
  {
    if TypeAt(ts, p) == Sym(LPAREN) {
      var c := ExprTree(ts, p + 1);
      x := Paren(c);
    } else {
      LeafTree(ts, p);
      x := Leaf(TypeAt(ts, p), LiteralAt(ts, p));
    }
  }

  lemma {:induction false} CompareTree(ts: seq<Token>, p: nat) returns (x: Compare)
    requires CompareAt(ts, p).Some?
    ensures CompareStands(ts, p, x) && CompareAt(ts, p).value == (CompareMeans(x), p + CompareSize(x))
    ensures x.Single? ==> TypeAt(ts, p + CompareSize(x)) !in COMPARISONS
    decreases |ts| - p, 1
  {
    var a := PrimaryTree(ts, p);
    var q := p + PrimarySize(a);
    var op := ComparisonOf(TypeAt(ts, q));
    OperatorTokens(TypeAt(ts, q), if op.None? then OpEq else op.value);
    if op.None? {
      x := Single(a);
    } else {
      var b := PrimaryTree(ts, q + 1);
      x := Pair(a, op.value, b);
    }
  }

  /** What is joined to `left` from `p` on makes it `e`, up to `q`. */
  predicate Joins(ts: seq<Token>, left: Expr, p: nat, e: Expr, q: nat) {
    p <= |ts| && JoinedAt(ts, left, p) == Some((e, q))
  }

  lemma {:induction false} JoinedFirst(ts: seq<Token>, left: Expr, p: nat, op: Operator, e: Expr, q: nat)
    returns (right: Expr, m: nat)
    requires Joins(ts, left, p, e, q) && ConnectiveOf(TypeAt(ts, p)) == Some(op)
    ensures CompareAt(ts, p + 1) == Some((right, m)) && Joins(ts, Binary(left, op, right), m, e, q)
  {
    right, m := CompareAt(ts, p + 1).value.0, CompareAt(ts, p + 1).value.1;
  }

  /** One more comparison at the end of a chain. */
  lemma {:induction false} ChainMore(
    ts: seq<Token>, start: nat, done: Chain, left: Expr, p: nat, op: Operator, x: Compare, q: nat)
    requires ChainCovers(ts, start, done, left, p) && ConnectiveOf(TypeAt(ts, p)) == Some(op)
    requires CompareStands(ts, p + 1, x) && p + 1 + CompareSize(x) == q
    requires x.Single? ==> TypeAt(ts, q) !in COMPARISONS
    ensures ChainCovers(ts, start, More(done, op, x), Binary(left, op, CompareMeans(x)), q)
  {
    OperatorTokens(TypeAt(ts, p), op);
  }

  lemma {:induction false} JoinedEnd(ts: seq<Token>, start: nat, c: Chain, left: Expr, p: nat, e: Expr, q: nat)
    requires ChainCovers(ts, start, c, left, p) && Joins(ts, left, p, e, q) && ConnectiveOf(TypeAt(ts, p)).None?
    ensures e == left && q == p && !Continued(c, TypeAt(ts, p))
  {
    OperatorTokens(TypeAt(ts, p), OpAnd);
  }

  /** A chain that has been read up to `p`, and what is joined to it, are one chain, and nothing more can be joined. */
  lemma {:induction false} JoinedTree(ts: seq<Token>, start: nat, done: Chain, left: Expr, p: nat, e: Expr, q: nat)
    returns (c: Chain)
    requires ChainCovers(ts, start, done, left, p) && Joins(ts, left, p, e, q)
    ensures ChainCovers(ts, start, c, e, q) && !Continued(c, TypeAt(ts, q))
    decreases |ts| - p, 1
  {
    var op := ConnectiveOf(TypeAt(ts, p));
    if op.None? {
      JoinedEnd(ts, start, done, left, p, e, q);
      c := done;
    } else {
      var right, m := JoinedFirst(ts, left, p, op.value, e, q);
      var x := CompareTree(ts, p + 1);
      ChainMore(ts, start, done, left, p, op.value, x, m);
      c := JoinedTree(ts, start, More(done, op.value, x), Binary(left, op.value, right), m, e, q);
    }
  }

  lemma {:induction false} ExprTree(ts: seq<Token>, p: nat) returns (c: Chain)
    requires ExprAt(ts, p).Some?
    ensures ChainStands(ts, p, c) && ExprAt(ts, p).value == (ChainMeans(c), p + ChainSize(c))
    ensures !Continued(c, TypeAt(ts, p + ChainSize(c)))
    decreases |ts| - p, 2
  {
    var x := CompareTree(ts, p);
    var q := p + CompareSize(x);
    assert ExprAt(ts, p) == JoinedAt(ts, CompareMeans(x), q);
    c := JoinedTree(ts, p, One(x), CompareMeans(x), q, ExprAt(ts, p).value.0, ExprAt(ts, p).value.1);
  }

  // ---------------------------------------------------------------- lists

  /** Reading a list from `p` on, behind `done`, ends with `all` at `q`. */
  predicate ChainsGot(ts: seq<Token>, done: seq<Expr>, p: nat, all: seq<Expr>, q: nat) {
    ExprsAt(ts, done, p) == Some((all, q))
  }

  /** The first element is `e`, up to `q`, and what is read behind it. */
  lemma {:induction false} ChainsFirst(ts: seq<Token>, done: seq<Expr>, p: nat, all: seq<Expr>, end: nat)
    returns (e: Expr, q: nat)
    requires ChainsGot(ts, done, p, all, end)
    ensures ExprAt(ts, p) == Some((e, q)) && q > p
    ensures if TypeAt(ts, q) == Sym(COMMA) then ChainsGot(ts, done + [e], q + 1, all, end)
            else all == done + [e] && end == q
  {
    e, q := ExprAt(ts, p).value.0, ExprAt(ts, p).value.1;
  }

  /** The tree of a list: it stands from `start` to `q` and means `all`. */
  predicate ChainsCover(ts: seq<Token>, start: nat, xs: List<Chain>, all: seq<Expr>, q: nat) {
    ChainsStand(ts, start, xs) && ChainsMean(xs) == all && start + ChainsSize(xs) == q
  }

  lemma {:induction false} ChainsMore(
    ts: seq<Token>, start: nat, done: List<Chain>, all: seq<Expr>, p: nat, x: Chain, q: nat)
    requires ChainsCover(ts, start, done, all, p) && TypeAt(ts, p) == Sym(COMMA)
    requires ChainStands(ts, p + 1, x) && p + 1 + ChainSize(x) == q
    ensures ChainsCover(ts, start, Then(done, x), all + [ChainMeans(x)], q)
  {
  }

  /** A list that has been read up to the comma before `p`, and what follows it, are one list. */
  lemma {:induction false} ChainsRest(
    ts: seq<Token>, start: nat, done: List<Chain>, means: seq<Expr>, p: nat, all: seq<Expr>, end: nat)
    returns (xs: List<Chain>)
    requires p > 0 && ChainsCover(ts, start, done, means, p - 1) && TypeAt(ts, p - 1) == Sym(COMMA)
    requires ChainsGot(ts, means, p, all, end)
    ensures ChainsCover(ts, start, xs, all, end)
    decreases |ts| - p
  {
    var e, q := ChainsFirst(ts, means, p, all, end);
    var x := ExprTree(ts, p);
    ChainsMore(ts, start, done, means, p - 1, x, q);
    xs := Then(done, x);
    if TypeAt(ts, q) == Sym(COMMA) {
      xs := ChainsRest(ts, start, xs, means + [e], q + 1, all, end);
    }
  }

  lemma {:induction false} ChainsTree(ts: seq<Token>, p: nat) returns (xs: List<Chain>)
    requires ExprsAt(ts, [], p).Some?
    ensures ChainsStand(ts, p, xs) && ExprsAt(ts, [], p) == Some((ChainsMean(xs), p + ChainsSize(xs)))
  {
    var all, end := ExprsAt(ts, [], p).value.0, ExprsAt(ts, [], p).value.1;
    var e, q := ChainsFirst(ts, [], p, all, end);
    var x := ExprTree(ts, p);
    xs := Only(x);
    assert [] + [e] == [e] == ChainsMean(xs);
    if TypeAt(ts, q) == Sym(COMMA) {
      xs := ChainsRest(ts, p, xs, [e], q + 1, all, end);
    }
  }

  /** Reading a list from `p` on, behind `done`, ends with `all` at `q`. */
  predicate PrimariesGot(ts: seq<Token>, done: seq<Expr>, p: nat, all: seq<Expr>, q: nat) {
    PrimariesAt(ts, done, p) == Some((all, q))
  }

  /** The first element is `e`, up to `q`, and what is read behind it. */
  lemma {:induction false} PrimariesFirst(ts: seq<Token>, done: seq<Expr>, p: nat, all: seq<Expr>, end: nat)
    returns (e: Expr, q: nat)
    requires PrimariesGot(ts, done, p, all, end)
    ensures PrimaryAt(ts, p) == Some((e, q)) && q > p
    ensures if TypeAt(ts, q) == Sym(COMMA) then PrimariesGot(ts, done + [e], q + 1, all, end)
            else all == done + [e] && end == q
  {
    e, q := PrimaryAt(ts, p).value.0, PrimaryAt(ts, p).value.1;
  }

  /** The tree of a list: it stands from `start` to `q` and means `all`. */
  predicate PrimariesCover(ts: seq<Token>, start: nat, xs: List<Primary>, all: seq<Expr>, q: nat) {
    PrimariesStand(ts, start, xs) && PrimariesMean(xs) == all && start + PrimariesSize(xs) == q
  }

  lemma {:induction false} PrimariesMore(
    ts: seq<Token>, start: nat, done: List<Primary>, all: seq<Expr>, p: nat, x: Primary, q: nat)
    requires PrimariesCover(ts, start, done, all, p) && TypeAt(ts, p) == Sym(COMMA)
    requires PrimaryStands(ts, p + 1, x) && p + 1 + PrimarySize(x) == q
    ensures PrimariesCover(ts, start, Then(done, x), all + [PrimaryMeans(x)], q)
  {
  }

  /** A list that has been read up to the comma before `p`, and what follows it, are one list. */
  lemma {:induction false} PrimariesRest(
    ts: seq<Token>, start: nat, done: List<Primary>, means: seq<Expr>, p: nat, all: seq<Expr>, end: nat)
    returns (xs: List<Primary>)
    requires p > 0 && PrimariesCover(ts, start, done, means, p - 1) && TypeAt(ts, p - 1) == Sym(COMMA)
    requires PrimariesGot(ts, means, p, all, end)
    ensures PrimariesCover(ts, start, xs, all, end)
    decreases |ts| - p
  {
    var e, q := PrimariesFirst(ts, means, p, all, end);
    var x := PrimaryTree(ts, p);
    PrimariesMore(ts, start, done, means, p - 1, x, q);
    xs := Then(done, x);
    if TypeAt(ts, q) == Sym(COMMA) {
      xs := PrimariesRest(ts, start, xs, means + [e], q + 1, all, end);
    }
  }

  lemma {:induction false} PrimariesTree(ts: seq<Token>, p: nat) returns (xs: List<Primary>)
    requires PrimariesAt(ts, [], p).Some?
    ensures PrimariesStand(ts, p, xs) && PrimariesAt(ts, [], p) == Some((PrimariesMean(xs), p + PrimariesSize(xs)))
  {
    var all, end := PrimariesAt(ts, [], p).value.0, PrimariesAt(ts, [], p).value.1;
    var e, q := PrimariesFirst(ts, [], p, all, end);
    var x := PrimaryTree(ts, p);
    xs := Only(x);
    assert [] + [e] == [e] == PrimariesMean(xs);
    if TypeAt(ts, q) == Sym(COMMA) {
      xs := PrimariesRest(ts, p, xs, [e], q + 1, all, end);
    }
  }

  lemma {:induction false} NamesRest(ts: seq<Token>, start: nat, done: List<string>, p: nat) returns (xs: List<string>)
    requires NamesStand(ts, start, done) && p == start + NamesSize(done) + 1 && TypeAt(ts, p - 1) == Sym(COMMA)
    requires NamesAt(ts, NamesMean(done), p).Some?
    ensures NamesStand(ts, start, xs)
    ensures NamesAt(ts, NamesMean(done), p) == Some((NamesMean(xs), start + NamesSize(xs)))
    decreases |ts| - p
  {
    NamesStep(ts, NamesMean(done), p, ts[p].literal);
    xs := Then(done, ts[p].literal);
    if TypeAt(ts, p + 1) == Sym(COMMA) {
      xs := NamesRest(ts, start, xs, p + 2);
    }
  }

  lemma {:induction false} NamesTree(ts: seq<Token>, p: nat) returns (xs: List<string>)
    requires NamesAt(ts, [], p).Some?
    ensures NamesStand(ts, p, xs) && NamesAt(ts, [], p) == Some((NamesMean(xs), p + NamesSize(xs)))
  {
    NamesStep(ts, [], p, ts[p].literal);
    assert [] + [ts[p].literal] == [ts[p].literal];
    xs := Only(ts[p].literal);
    if TypeAt(ts, p + 1) == Sym(COMMA) {
      xs := NamesRest(ts, p, xs, p + 2);
    }
  }

  lemma {:induction false} SetTree(ts: seq<Token>, p: nat) returns (x: Set)
    requires AssignmentAt(ts, p).Some?
    ensures SetStands(ts, p, x)
    ensures AssignmentAt(ts, p).value == (Assignment(x.column, ChainMeans(x.value)), p + 2 + ChainSize(x.value))
  {
    var c := ExprTree(ts, p + 2);
    x := Set(ts[p].literal, c);
  }

  /** Reading a list from `p` on, behind `done`, ends with `all` at `q`. */
  predicate SetsGot(ts: seq<Token>, done: seq<Assignment>, p: nat, all: seq<Assignment>, q: nat) {
    AssignmentsAt(ts, done, p) == Some((all, q))
  }

  /** The first element is `e`, up to `q`, and what is read behind it. */
  lemma {:induction false} SetsFirst(ts: seq<Token>, done: seq<Assignment>, p: nat, all: seq<Assignment>, end: nat)
    returns (e: Assignment, q: nat)
    requires SetsGot(ts, done, p, all, end)
    ensures AssignmentAt(ts, p) == Some((e, q)) && q > p
    ensures if TypeAt(ts, q) == Sym(COMMA) then SetsGot(ts, done + [e], q + 1, all, end)
            else all == done + [e] && end == q
  {
    e, q := AssignmentAt(ts, p).value.0, AssignmentAt(ts, p).value.1;
  }

  /** The tree of a list: it stands from `start` to `q` and means `all`. */
  predicate SetsCover(ts: seq<Token>, start: nat, xs: List<Set>, all: seq<Assignment>, q: nat) {
    SetsStand(ts, start, xs) && SetsMean(xs) == all && start + SetsSize(xs) == q
  }

  lemma {:induction false} SetsMore(
    ts: seq<Token>, start: nat, done: List<Set>, all: seq<Assignment>, p: nat, x: Set, q: nat)
    requires SetsCover(ts, start, done, all, p) && TypeAt(ts, p) == Sym(COMMA)
    requires SetStands(ts, p + 1, x) && p + 1 + 2 + ChainSize(x.value) == q
    ensures SetsCover(ts, start, Then(done, x), all + [Assignment(x.column, ChainMeans(x.value))], q)
  {
  }

  /** A list that has been read up to the comma before `p`, and what follows it, are one list. */
  lemma {:induction false} SetsRest(
    ts: seq<Token>, start: nat, done: List<Set>, means: seq<Assignment>, p: nat, all: seq<Assignment>, end: nat)
    returns (xs: List<Set>)
    requires p > 0 && SetsCover(ts, start, done, means, p - 1) && TypeAt(ts, p - 1) == Sym(COMMA)
    requires SetsGot(ts, means, p, all, end)
    ensures SetsCover(ts, start, xs, all, end)
    decreases |ts| - p
  {
    var e, q := SetsFirst(ts, means, p, all, end);
    var x := SetTree(ts, p);
    SetsMore(ts, start, done, means, p - 1, x, q);
    xs := Then(done, x);
    if TypeAt(ts, q) == Sym(COMMA) {
      xs := SetsRest(ts, start, xs, means + [e], q + 1, all, end);
    }
  }

  lemma {:induction false} SetsTree(ts: seq<Token>, p: nat) returns (xs: List<Set>)
    requires AssignmentsAt(ts, [], p).Some?
    ensures SetsStand(ts, p, xs) && AssignmentsAt(ts, [], p) == Some((SetsMean(xs), p + SetsSize(xs)))
  {
    var all, end := AssignmentsAt(ts, [], p).value.0, AssignmentsAt(ts, [], p).value.1;
    var e, q := SetsFirst(ts, [], p, all, end);
    var x := SetTree(ts, p);
    xs := Only(x);
    assert [] + [e] == [e] == SetsMean(xs);
    if TypeAt(ts, q) == Sym(COMMA) {
      xs := SetsRest(ts, p, xs, [e], q + 1, all, end);
    }
  }

  lemma {:induction false} ConstraintGrows(ts: seq<Token>, start: nat, x: Col, c: Constraint)
    requires ColStands(ts, start, x) && ConstraintStands(ts, start + 2 + 2 * |x.constraints|, c)
    ensures ColStands(ts, start, x.(constraints := x.constraints + [c]))
    ensures ColMeans(x.(constraints := x.constraints + [c])) ==
            if c.IsKey? then ColMeans(x).(primaryKey := true) else ColMeans(x).(notNull := true)
  {
  }

  /** Constraints that have been read up to `p`, and those that follow. */
  lemma {:induction false} ConstraintsTree(ts: seq<Token>, start: nat, x: Col, p: nat) returns (y: Col)
    requires ColStands(ts, start, x) && p == start + 2 + 2 * |x.constraints| <= |ts|
    requires ConstraintsAt(ts, ColMeans(x), p).Some?
    ensures ColStands(ts, start, y)
    ensures ConstraintsAt(ts, ColMeans(x), p).value == (ColMeans(y), start + 2 + 2 * |y.constraints|)
    decreases |ts| - p
  {
    if TypeAt(ts, p) == Key(PRIMARY) || TypeAt(ts, p) == Key(NOT) {
      var c := if TypeAt(ts, p) == Key(PRIMARY) then IsKey else IsNotNull;
      ConstraintGrows(ts, start, x, c);
      ConstraintStep(ts, ColMeans(x), p, c);
      y := ConstraintsTree(ts, start, x.(constraints := x.constraints + [c]), p + 2);
    } else {
      y := x;
    }
  }

  lemma {:induction false} ColTree(ts: seq<Token>, p: nat) returns (x: Col)
    requires ColumnDefAt(ts, p).Some?
    ensures ColStands(ts, p, x) && ColumnDefAt(ts, p).value == (ColMeans(x), p + 2 + 2 * |x.constraints|)
  {
    x := ConstraintsTree(ts, p, Col(ts[p].literal, ColumnTypeOf(TypeAt(ts, p + 1)).value, []), p + 2);
  }

  /** Reading a list from `p` on, behind `done`, ends with `all` at `q`. */
  predicate ColsGot(ts: seq<Token>, done: seq<ColumnDef>, p: nat, all: seq<ColumnDef>, q: nat) {
    ColumnDefsAt(ts, done, p) == Some((all, q))
  }

  /** The first element is `e`, up to `q`, and what is read behind it. */
  lemma {:induction false} ColsFirst(ts: seq<Token>, done: seq<ColumnDef>, p: nat, all: seq<ColumnDef>, end: nat)
    returns (e: ColumnDef, q: nat)
    requires ColsGot(ts, done, p, all, end)
    ensures ColumnDefAt(ts, p) == Some((e, q)) && q > p
    ensures if TypeAt(ts, q) == Sym(COMMA) then ColsGot(ts, done + [e], q + 1, all, end)
            else all == done + [e] && end == q
  {
    e, q := ColumnDefAt(ts, p).value.0, ColumnDefAt(ts, p).value.1;
  }

  /** The tree of a list: it stands from `start` to `q` and means `all`. */
  predicate ColsCover(ts: seq<Token>, start: nat, xs: List<Col>, all: seq<ColumnDef>, q: nat) {
    ColsStand(ts, start, xs) && ColsMean(xs) == all && start + ColsSize(xs) == q
  }

  lemma {:induction false} ColsMore(
    ts: seq<Token>, start: nat, done: List<Col>, all: seq<ColumnDef>, p: nat, x: Col, q: nat)
    requires ColsCover(ts, start, done, all, p) && TypeAt(ts, p) == Sym(COMMA)
    requires ColStands(ts, p + 1, x) && p + 1 + 2 + 2 * |x.constraints| == q
    ensures ColsCover(ts, start, Then(done, x), all + [ColMeans(x)], q)
  {
  }

  /** A list that has been read up to the comma before `p`, and what follows it, are one list. */
  lemma {:induction false} ColsRest(
    ts: seq<Token>, start: nat, done: List<Col>, means: seq<ColumnDef>, p: nat, all: seq<ColumnDef>, end: nat)
    returns (xs: List<Col>)
    requires p > 0 && ColsCover(ts, start, done, means, p - 1) && TypeAt(ts, p - 1) == Sym(COMMA)
    requires ColsGot(ts, means, p, all, end)
    ensures ColsCover(ts, start, xs, all, end)
    decreases |ts| - p
  {
    var e, q := ColsFirst(ts, means, p, all, end);
    var x := ColTree(ts, p);
    ColsMore(ts, start, done, means, p - 1, x, q);
    xs := Then(done, x);
    if TypeAt(ts, q) == Sym(COMMA) {
      xs := ColsRest(ts, start, xs, means + [e], q + 1, all, end);
    }
  }

  lemma {:induction false} ColsTree(ts: seq<Token>, p: nat) returns (xs: List<Col>)
    requires ColumnDefsAt(ts, [], p).Some?
    ensures ColsStand(ts, p, xs) && ColumnDefsAt(ts, [], p) == Some((ColsMean(xs), p + ColsSize(xs)))
  {
    var all, end := ColumnDefsAt(ts, [], p).value.0, ColumnDefsAt(ts, [], p).value.1;
    var e, q := ColsFirst(ts, [], p, all, end);
    var x := ColTree(ts, p);
    xs := Only(x);
    assert [] + [e] == [e] == ColsMean(xs);
    if TypeAt(ts, q) == Sym(COMMA) {
      xs := ColsRest(ts, p, xs, [e], q + 1, all, end);
    }
  }

  // ---------------------------------------------------------------- statements

  lemma {:induction false} CreateTree(ts: seq<Token>) returns (cols: List<Col>)
    requires CreateTableAt(ts).Some?
    ensures CreateStands(ts, ts[2].literal, cols)
    ensures CreateTableAt(ts) == Some(CreateTable(ts[2].literal, ColsMean(cols)))
  {
    cols := ColsTree(ts, 4);
  }

  lemma {:induction false} NameListTree(ts: seq<Token>) returns (names: Option<List<string>>)
    requires 3 <= |ts| && InsertColumnsAt(ts, 3).Some?
    ensures NameListStands(ts, 3, names)
    ensures InsertColumnsAt(ts, 3).value == (NameListMeans(names), 3 + NameListSize(names))
  {
    names := None;
    if TypeAt(ts, 3) == Sym(LPAREN) {
      var xs := NamesTree(ts, 4);
      names := Some(xs);
    }
  }

  lemma {:induction false} InsertTree(ts: seq<Token>) returns (names: Option<List<string>>, values: List<Chain>)
    requires InsertAt(ts).Some?
    ensures InsertStands(ts, ts[2].literal, names, values)
    ensures InsertAt(ts) == Some(Insert(ts[2].literal, NameListMeans(names), ChainsMean(values)))
  {
    names := NameListTree(ts);
    values := ChainsTree(ts, 3 + NameListSize(names) + 2);
  }

  lemma {:induction false} ProjectionTree(ts: seq<Token>) returns (projection: Option<List<Primary>>)
    requires ProjectionAt(ts, 1).Some?
    ensures ProjectionStands(ts, 1, projection)
    ensures ProjectionAt(ts, 1).value == (ProjectionMeans(projection), 1 + ProjectionSize(projection))
  {
    projection := None;
    if TypeAt(ts, 1) != Sym(STAR) {
      var xs := PrimariesTree(ts, 1);
      projection := Some(xs);
    }
  }

  lemma {:induction false} SelectTree(ts: seq<Token>)
    returns (projection: Option<List<Primary>>, table: string, where: Option<Chain>)
    requires SelectAt(ts).Some?
    ensures SelectStands(ts, projection, table, where) && !GoesOn(ts, SelectSentence(projection, table, where))
    ensures SelectAt(ts) == Some(Select(ProjectionMeans(projection), table, WhereMeans(where)))
  {
    projection := ProjectionTree(ts);
    var q := 1 + ProjectionSize(projection);
    table, where := ts[q + 1].literal, None;
    if TypeAt(ts, q + 2) == Key(WHERE) {
      var c := ExprTree(ts, q + 3);
      where := Some(c);
    }
  }

  lemma {:induction false} UpdateTree(ts: seq<Token>) returns (sets: List<Set>, c: Chain)
    requires UpdateAt(ts).Some?
    ensures UpdateStands(ts, ts[1].literal, sets, c)
    ensures UpdateAt(ts) == Some(Update(ts[1].literal, SetsMean(sets), Some(ChainMeans(c))))
    ensures !Continued(c, TypeAt(ts, 4 + SetsSize(sets) + ChainSize(c)))
  {
    sets := SetsTree(ts, 3);
    c := ExprTree(ts, 4 + SetsSize(sets));
  }

  lemma {:induction false} DeleteTree(ts: seq<Token>) returns (c: Chain)
    requires DeleteAt(ts).Some?
    ensures DeleteStands(ts, ts[2].literal, c) && DeleteAt(ts) == Some(Delete(ts[2].literal, Some(ChainMeans(c))))
    ensures !Continued(c, TypeAt(ts, 4 + ChainSize(c)))
  {
    c := ExprTree(ts, 4);
  }

  lemma {:induction false} StatementTree(ts: seq<Token>) returns (x: Sentence)
    requires StatementAt(ts).Some?
    ensures Stands(ts, x) && Means(x) == StatementAt(ts).value && !GoesOn(ts, x)
  {
    match TypeAt(ts, 0)
    case Key(CREATE) =>
      var cols := CreateTree(ts);
      x := CreateSentence(ts[2].literal, cols);
    case Key(INSERT) =>
      var names, values := InsertTree(ts);
      x := InsertSentence(ts[2].literal, names, values);
    case Key(SELECT) =>
      var projection, table, where := SelectTree(ts);
      x := SelectSentence(projection, table, where);
    case Key(UPDATE) =>
      var sets, c := UpdateTree(ts);
      x := UpdateSentence(ts[1].literal, sets, c);
    case Key(DELETE) =>
      var c := DeleteTree(ts);
      x := DeleteSentence(ts[2].literal, c);
  }

  /** The text begins with the sentence, which means `s` and is not continued by what follows. */
  ghost predicate Begins(input: string, x: Sentence, s: Statement) {
    var ts := SqlLexer.Lex(input);
    ts.Ok? && Stands(ts.value, x) && Means(x) == s && !GoesOn(ts.value, x)
  }

  /** A text is parsed to a statement exactly when it begins with a sentence of the grammar that means it. */
  lemma {:induction false} ParseExactly(input: string, s: Statement)
    ensures Parse(input) == Some(s) <==> exists x :: Begins(input, x, s)
  {
    if Parse(input) == Some(s) {
      var x := StatementTree(SqlLexer.Lex(input).value);
      assert Begins(input, x, s);
    }
    if x :| Begins(input, x, s) {
      SentenceReads(SqlLexer.Lex(input).value, x);
    }
  }
}
