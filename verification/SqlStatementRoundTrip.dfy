/**
 Statement by statement: the parser reads the printed words of a statement as
 that statement.
 */
module SqlStatementRoundTrip {
  import opened Common
  import opened SqlTokens
  import opened SqlAst
  import opened SqlLexerFacts
  import opened SqlParser
  import opened SqlPrinter
  import opened SqlRoundTrip

  lemma {:induction false} NthWord(ts: seq<Token>, p: nat, ws: seq<Word>, i: nat)
    requires WordsAt(ts, p, ws) && i < |ws|
    ensures p + i < |ts| && TokenIs(ts[p + i], ws[i]) && TypeAt(ts, p + i) == ws[i].typ
  {
  }

  // ---------------------------------------------------------------- lists

  /** An expression list ends here: nothing continues its last expression, and no comma follows. */
  predicate ListEnds(ts: seq<Token>, p: nat) {
    Ends(ts, p) && TypeAt(ts, p) != Sym(COMMA)
  }

  /** The head of a list, the comma behind it, and the rest. */
  lemma {:induction false} HeadCommaRest(ts: seq<Token>, p: nat, head: seq<Word>, rest: seq<Word>)
    requires WordsAt(ts, p, head + [SymbolWord(COMMA)] + rest)
    ensures WordsAt(ts, p, head) && TypeAt(ts, p + |head|) == Sym(COMMA) && WordsAt(ts, p + |head| + 1, rest)
  {
    WordsSplit3(ts, p, head, [SymbolWord(COMMA)], rest);
    WordAt(ts, p + |head|, SymbolWord(COMMA));
  }

  lemma {:induction false} CommaEnds(ts: seq<Token>, p: nat)
    requires TypeAt(ts, p) == Sym(COMMA)
    ensures Ends(ts, p)
  {
  }

  /** The first of several expressions is read, alone or as a primary, up to the comma behind it. */
  lemma {:induction false} FirstExprReads(ts: seq<Token>, p: nat, es: seq<Expr>) returns (q: nat)
    requires |es| > 1 && forall i :: 0 <= i < |es| ==> Printable(es[i])
    requires WordsAt(ts, p, ExprsWords(es))
    ensures ExprAt(ts, p) == PrimaryAt(ts, p) == Some((es[0], q)) && TypeAt(ts, q) == Sym(COMMA)
    ensures WordsAt(ts, q + 1, ExprsWords(es[1..])) && p + |ExprsWords(es)| == q + 1 + |ExprsWords(es[1..])|
  {
    HeadCommaRest(ts, p, ExprWords(es[0]), ExprsWords(es[1..]));
    q := p + |ExprWords(es[0])|;
    CommaEnds(ts, q);
    PrimaryReads(ts, p, es[0]);
    ExprReads(ts, p, es[0]);
  }

  lemma {:induction false} OnlyExprReads(ts: seq<Token>, p: nat, es: seq<Expr>)
    requires |es| == 1 && forall i :: 0 <= i < |es| ==> Printable(es[i])
    requires WordsAt(ts, p, ExprsWords(es))
    ensures PrimaryAt(ts, p) == Some((es[0], p + |ExprsWords(es)|)) && es == [es[0]]
    ensures Ends(ts, p + |ExprsWords(es)|) ==> ExprAt(ts, p) == Some((es[0], p + |ExprsWords(es)|))
  {
    assert ExprsWords(es) == ExprWords(es[0]);
    PrimaryReads(ts, p, es[0]);
    if Ends(ts, p + |ExprsWords(es)|) {
      ExprReads(ts, p, es[0]);
    }
  }

  lemma {:induction false} ExprsLast(ts: seq<Token>, acc: seq<Expr>, p: nat, e: Expr, q: nat)
    requires ExprAt(ts, p) == Some((e, q)) && TypeAt(ts, q) != Sym(COMMA)
    ensures ExprsAt(ts, acc, p) == Some((acc + [e], q))
  {
  }

  lemma {:induction false} ExprsMore(ts: seq<Token>, acc: seq<Expr>, p: nat, es: seq<Expr>, q: nat, end: nat)
    requires es != [] && ExprAt(ts, p) == Some((es[0], q)) && TypeAt(ts, q) == Sym(COMMA)
    requires ExprsAt(ts, acc + [es[0]], q + 1) == Some((acc + [es[0]] + es[1..], end))
    ensures ExprsAt(ts, acc, p) == Some((acc + es, end))
  {
    assert acc + [es[0]] + es[1..] == acc + es;
  }

  lemma {:induction false} ExprsRead(ts: seq<Token>, acc: seq<Expr>, p: nat, es: seq<Expr>)
    requires es != [] && forall i :: 0 <= i < |es| ==> Printable(es[i])
    requires WordsAt(ts, p, ExprsWords(es)) && ListEnds(ts, p + |ExprsWords(es)|)
    ensures ExprsAt(ts, acc, p) == Some((acc + es, p + |ExprsWords(es)|))
    decreases |es|
  {
    if |es| == 1 {
      OnlyExprReads(ts, p, es);
      ExprsLast(ts, acc, p, es[0], p + |ExprsWords(es)|);
    } else {
      var q := FirstExprReads(ts, p, es);
      ExprsRead(ts, acc + [es[0]], q + 1, es[1..]);
      ExprsMore(ts, acc, p, es, q, p + |ExprsWords(es)|);
    }
  }

  lemma {:induction false} PrimariesLast(ts: seq<Token>, acc: seq<Expr>, p: nat, e: Expr, q: nat)
    requires PrimaryAt(ts, p) == Some((e, q)) && TypeAt(ts, q) != Sym(COMMA)
    ensures PrimariesAt(ts, acc, p) == Some((acc + [e], q))
  {
  }

  lemma {:induction false} PrimariesMore(ts: seq<Token>, acc: seq<Expr>, p: nat, es: seq<Expr>, q: nat, end: nat)
    requires es != [] && PrimaryAt(ts, p) == Some((es[0], q)) && TypeAt(ts, q) == Sym(COMMA)
    requires PrimariesAt(ts, acc + [es[0]], q + 1) == Some((acc + [es[0]] + es[1..], end))
    ensures PrimariesAt(ts, acc, p) == Some((acc + es, end))
  {
    assert acc + [es[0]] + es[1..] == acc + es;
  }

  lemma {:induction false} OnlyPrimaryRead(ts: seq<Token>, acc: seq<Expr>, p: nat, es: seq<Expr>, end: nat)
    requires |es| == 1 && PrimaryAt(ts, p) == Some((es[0], end)) && TypeAt(ts, end) != Sym(COMMA)
    ensures PrimariesAt(ts, acc, p) == Some((acc + es, end))
  {
    PrimariesLast(ts, acc, p, es[0], end);
    assert es == [es[0]];
  }

  lemma {:induction false} PrimariesRead(ts: seq<Token>, acc: seq<Expr>, p: nat, es: seq<Expr>)
    requires es != [] && forall i :: 0 <= i < |es| ==> Printable(es[i])
    requires WordsAt(ts, p, ExprsWords(es)) && TypeAt(ts, p + |ExprsWords(es)|) != Sym(COMMA)
    ensures PrimariesAt(ts, acc, p) == Some((acc + es, p + |ExprsWords(es)|))
    decreases |es|
  {
    if |es| == 1 {
      OnlyExprReads(ts, p, es);
      OnlyPrimaryRead(ts, acc, p, es, p + |ExprsWords(es)|);
    } else {
      var q := FirstExprReads(ts, p, es);
      PrimariesRead(ts, acc + [es[0]], q + 1, es[1..]);
      PrimariesMore(ts, acc, p, es, q, p + |ExprsWords(es)|);
    }
  }

  lemma {:induction false} NameAt(ts: seq<Token>, p: nat, name: string)
    requires WordsAt(ts, p, [Word(IDENT, name)])
    ensures p < |ts| && TypeAt(ts, p) == IDENT && ts[p].literal == name
  {
    WordAt(ts, p, Word(IDENT, name));
  }

  lemma {:induction false} NamesRead(ts: seq<Token>, acc: seq<string>, p: nat, names: seq<string>)
    requires names != [] && WordsAt(ts, p, NamesWords(names)) && TypeAt(ts, p + |NamesWords(names)|) != Sym(COMMA)
    ensures NamesAt(ts, acc, p) == Some((acc + names, p + |NamesWords(names)|))
    decreases |names|
  {
    if |names| == 1 {
      NameAt(ts, p, names[0]);
      assert names == [names[0]];
    } else {
      HeadCommaRest(ts, p, [Word(IDENT, names[0])], NamesWords(names[1..]));
      NameAt(ts, p, names[0]);
      NamesRead(ts, acc + [names[0]], p + 2, names[1..]);
      assert acc + [names[0]] + names[1..] == acc + names;
    }
  }

  lemma {:induction false} AssignmentReads(ts: seq<Token>, p: nat, a: Assignment)
    requires Printable(a.value) && WordsAt(ts, p, AssignmentWords(a)) && Ends(ts, p + |AssignmentWords(a)|)
    ensures AssignmentAt(ts, p) == Some((a, p + |AssignmentWords(a)|))
  {
    WordsSplit3(ts, p, [Word(IDENT, a.column)], [SymbolWord(EQ)], ExprWords(a.value));
    NameAt(ts, p, a.column);
    WordAt(ts, p + 1, SymbolWord(EQ));
    ExprReads(ts, p + 2, a.value);
  }

  /** The first of several assignments is read up to the comma behind it. */
  lemma {:induction false} FirstAssignmentReads(ts: seq<Token>, p: nat, xs: seq<Assignment>) returns (q: nat)
    requires |xs| > 1 && forall i :: 0 <= i < |xs| ==> Printable(xs[i].value)
    requires WordsAt(ts, p, AssignmentsWords(xs))
    ensures AssignmentAt(ts, p) == Some((xs[0], q)) && TypeAt(ts, q) == Sym(COMMA)
    ensures WordsAt(ts, q + 1, AssignmentsWords(xs[1..]))
    ensures p + |AssignmentsWords(xs)| == q + 1 + |AssignmentsWords(xs[1..])|
  {
    HeadCommaRest(ts, p, AssignmentWords(xs[0]), AssignmentsWords(xs[1..]));
    q := p + |AssignmentWords(xs[0])|;
    CommaEnds(ts, q);
    AssignmentReads(ts, p, xs[0]);
  }

  lemma {:induction false} OnlyAssignmentReads(ts: seq<Token>, p: nat, xs: seq<Assignment>)
    requires |xs| == 1 && forall i :: 0 <= i < |xs| ==> Printable(xs[i].value)
    requires WordsAt(ts, p, AssignmentsWords(xs)) && Ends(ts, p + |AssignmentsWords(xs)|)
    ensures AssignmentAt(ts, p) == Some((xs[0], p + |AssignmentsWords(xs)|)) && xs == [xs[0]]
  {
    assert AssignmentsWords(xs) == AssignmentWords(xs[0]);
    AssignmentReads(ts, p, xs[0]);
  }

  lemma {:induction false} AssignmentsLast(ts: seq<Token>, acc: seq<Assignment>, p: nat, a: Assignment, q: nat)
    requires AssignmentAt(ts, p) == Some((a, q)) && TypeAt(ts, q) != Sym(COMMA)
    ensures AssignmentsAt(ts, acc, p) == Some((acc + [a], q))
  {
  }

  lemma {:induction false} AssignmentsMore(
    ts: seq<Token>, acc: seq<Assignment>, p: nat, xs: seq<Assignment>, q: nat, end: nat)
    requires xs != [] && AssignmentAt(ts, p) == Some((xs[0], q)) && TypeAt(ts, q) == Sym(COMMA)
    requires AssignmentsAt(ts, acc + [xs[0]], q + 1) == Some((acc + [xs[0]] + xs[1..], end))
    ensures AssignmentsAt(ts, acc, p) == Some((acc + xs, end))
  {
    assert acc + [xs[0]] + xs[1..] == acc + xs;
  }

  lemma {:induction false} AssignmentsRead(ts: seq<Token>, acc: seq<Assignment>, p: nat, xs: seq<Assignment>)
    requires xs != [] && forall i :: 0 <= i < |xs| ==> Printable(xs[i].value)
    requires WordsAt(ts, p, AssignmentsWords(xs)) && ListEnds(ts, p + |AssignmentsWords(xs)|)
    ensures AssignmentsAt(ts, acc, p) == Some((acc + xs, p + |AssignmentsWords(xs)|))
    decreases |xs|
  {
    if |xs| == 1 {
      OnlyAssignmentReads(ts, p, xs);
      AssignmentsLast(ts, acc, p, xs[0], p + |AssignmentsWords(xs)|);
    } else {
      var q := FirstAssignmentReads(ts, p, xs);
      AssignmentsRead(ts, acc + [xs[0]], q + 1, xs[1..]);
      AssignmentsMore(ts, acc, p, xs, q, p + |AssignmentsWords(xs)|);
    }
  }

  // ---------------------------------------------------------------- column definitions

  /** No constraint follows. */
  predicate DefEnds(ts: seq<Token>, p: nat) {
    TypeAt(ts, p) != Key(PRIMARY) && TypeAt(ts, p) != Key(NOT)
  }

  lemma {:induction false} NotNullReads(ts: seq<Token>, d: ColumnDef, p: nat, notNull: bool)
    requires WordsAt(ts, p, NotNullWords(notNull)) && DefEnds(ts, p + |NotNullWords(notNull)|)
    ensures ConstraintsAt(ts, d, p) == Some((if notNull then d.(notNull := true) else d, p + |NotNullWords(notNull)|))
    ensures !notNull ==> DefEnds(ts, p)
  {
    if notNull {
      NthWord(ts, p, NotNullWords(true), 0);
      NthWord(ts, p, NotNullWords(true), 1);
    }
  }

  lemma {:induction false} KeyReads(ts: seq<Token>, d: ColumnDef, p: nat, primaryKey: bool, q: nat)
    requires p <= |ts| && WordsAt(ts, p, PrimaryKeyWords(primaryKey)) && q == p + |PrimaryKeyWords(primaryKey)|
    ensures ConstraintsAt(ts, d, p) == ConstraintsAt(ts, if primaryKey then d.(primaryKey := true) else d, q)
  {
    if primaryKey {
      NthWord(ts, p, PrimaryKeyWords(true), 0);
      NthWord(ts, p, PrimaryKeyWords(true), 1);
    }
  }

  lemma {:induction false} TypeWordType(t: ColumnType)
    ensures ColumnTypeOf(TypeWord(t).typ) == Some(t)
  {
  }

  lemma {:induction false} DefReads(ts: seq<Token>, p: nat, d: ColumnDef)
    requires WordsAt(ts, p, DefWords(d)) && DefEnds(ts, p + |DefWords(d)|)
    ensures ColumnDefAt(ts, p) == Some((d, p + |DefWords(d)|))
  {
    var head := [Word(IDENT, d.name), TypeWord(d.typ)];
    WordsSplit3(ts, p, head, PrimaryKeyWords(d.primaryKey), NotNullWords(d.notNull));
    NthWord(ts, p, head, 0);
    NthWord(ts, p, head, 1);
    TypeWordType(d.typ);
    var plain := ColumnDef(d.name, d.typ, false, false);
    var q := p + 2 + |PrimaryKeyWords(d.primaryKey)|;
    KeyReads(ts, plain, p + 2, d.primaryKey, q);
    NotNullReads(ts, ColumnDef(d.name, d.typ, d.primaryKey, false), q, d.notNull);
  }

  /** The first of several definitions is read up to the comma behind it. */
  lemma {:induction false} FirstDefReads(ts: seq<Token>, p: nat, ds: seq<ColumnDef>) returns (q: nat)
    requires |ds| > 1 && WordsAt(ts, p, DefsWords(ds))
    ensures ColumnDefAt(ts, p) == Some((ds[0], q)) && TypeAt(ts, q) == Sym(COMMA)
    ensures WordsAt(ts, q + 1, DefsWords(ds[1..])) && p + |DefsWords(ds)| == q + 1 + |DefsWords(ds[1..])|
  {
    HeadCommaRest(ts, p, DefWords(ds[0]), DefsWords(ds[1..]));
    q := p + |DefWords(ds[0])|;
    DefReads(ts, p, ds[0]);
  }

  lemma {:induction false} OnlyDefReads(ts: seq<Token>, p: nat, ds: seq<ColumnDef>)
    requires |ds| == 1 && WordsAt(ts, p, DefsWords(ds)) && DefEnds(ts, p + |DefsWords(ds)|)
    ensures ColumnDefAt(ts, p) == Some((ds[0], p + |DefsWords(ds)|)) && ds == [ds[0]]
  {
    assert DefsWords(ds) == DefWords(ds[0]);
    DefReads(ts, p, ds[0]);
  }

  lemma {:induction false} DefsLast(ts: seq<Token>, acc: seq<ColumnDef>, p: nat, d: ColumnDef, q: nat)
    requires ColumnDefAt(ts, p) == Some((d, q)) && TypeAt(ts, q) != Sym(COMMA)
    ensures ColumnDefsAt(ts, acc, p) == Some((acc + [d], q))
  {
  }

  lemma {:induction false} DefsMore(ts: seq<Token>, acc: seq<ColumnDef>, p: nat, ds: seq<ColumnDef>, q: nat, end: nat)
    requires ds != [] && ColumnDefAt(ts, p) == Some((ds[0], q)) && TypeAt(ts, q) == Sym(COMMA)
    requires ColumnDefsAt(ts, acc + [ds[0]], q + 1) == Some((acc + [ds[0]] + ds[1..], end))
    ensures ColumnDefsAt(ts, acc, p) == Some((acc + ds, end))
  {
    assert acc + [ds[0]] + ds[1..] == acc + ds;
  }

  /** The definitions stand one behind the other, a comma between them, the last one ending at `end`. */
  ghost predicate DefsStand(ts: seq<Token>, p: nat, ds: seq<ColumnDef>, end: nat)
    requires ds != []
    decreases |ds|
  {
    if |ds| == 1 then ColumnDefAt(ts, p) == Some((ds[0], end))
    else exists q: nat ::
      ColumnDefAt(ts, p) == Some((ds[0], q)) && TypeAt(ts, q) == Sym(COMMA) && DefsStand(ts, q + 1, ds[1..], end)
  }

  lemma {:induction false} DefsStandThere(ts: seq<Token>, p: nat, ds: seq<ColumnDef>, end: nat)
    requires ds != [] && WordsAt(ts, p, DefsWords(ds)) && end == p + |DefsWords(ds)| && TypeAt(ts, end) == Sym(RPAREN)
    ensures DefsStand(ts, p, ds, end)
    decreases |ds|
  {
    if |ds| == 1 {
      OnlyDefReads(ts, p, ds);
    } else {
      var q := FirstDefReads(ts, p, ds);
      DefsStandThere(ts, q + 1, ds[1..], end);
    }
  }

  lemma {:induction false} StandingDefsRead(ts: seq<Token>, acc: seq<ColumnDef>, p: nat, ds: seq<ColumnDef>, end: nat)
    requires ds != [] && DefsStand(ts, p, ds, end) && TypeAt(ts, end) != Sym(COMMA)
    ensures ColumnDefsAt(ts, acc, p) == Some((acc + ds, end))
    decreases |ds|
  {
    if |ds| == 1 {
      DefsLast(ts, acc, p, ds[0], end);
      assert ds == [ds[0]];
    } else {
      var q: nat :|
        ColumnDefAt(ts, p) == Some((ds[0], q)) && TypeAt(ts, q) == Sym(COMMA) && DefsStand(ts, q + 1, ds[1..], end);
      StandingDefsRead(ts, acc + [ds[0]], q + 1, ds[1..], end);
      DefsMore(ts, acc, p, ds, q, end);
    }
  }

  lemma {:induction false} DefsRead(ts: seq<Token>, acc: seq<ColumnDef>, p: nat, ds: seq<ColumnDef>)
    requires ds != [] && WordsAt(ts, p, DefsWords(ds)) && TypeAt(ts, p + |DefsWords(ds)|) == Sym(RPAREN)
    ensures ColumnDefsAt(ts, acc, p) == Some((acc + ds, p + |DefsWords(ds)|))
  {
    DefsStandThere(ts, p, ds, p + |DefsWords(ds)|);
    StandingDefsRead(ts, acc, p, ds, p + |DefsWords(ds)|);
  }

  // ---------------------------------------------------------------- statements

  /** The token at `p`, right behind the statement, would be read as part of it. */
  predicate Continued(ts: seq<Token>, s: Statement, p: nat) {
    match s
    case CreateTable(_, _) => false
    case Insert(_, _, _) => false
    case Select(_, _, None) => TypeAt(ts, p) == Key(WHERE)
    case _ => !Ends(ts, p)
  }

  /** The three words a statement starts with. */
  lemma {:induction false} ThreeWords(ts: seq<Token>, a: Word, b: Word, c: Word, rest: seq<Word>)
    requires WordsAt(ts, 0, [a, b, c] + rest)
    ensures |ts| >= 3 && TokenIs(ts[0], a) && TokenIs(ts[1], b) && TokenIs(ts[2], c) && WordsAt(ts, 3, rest)
  {
    WordsSplit(ts, 0, [a, b, c], rest);
    NthWord(ts, 0, [a, b, c], 0);
    NthWord(ts, 0, [a, b, c], 1);
    NthWord(ts, 0, [a, b, c], 2);
  }

  lemma {:induction false} CreateIs(ts: seq<Token>, table: string, defs: seq<ColumnDef>, end: nat)
    requires |ts| >= 3 && ts[0].typ == Key(CREATE) && ts[1].typ == Key(TABLE) && ts[2].typ == IDENT
    requires ts[2].literal == table && TypeAt(ts, 3) == Sym(LPAREN)
    requires ColumnDefsAt(ts, [], 4) == Some((defs, end)) && TypeAt(ts, end) == Sym(RPAREN)
    ensures TypeAt(ts, 0) == Key(CREATE) && CreateTableAt(ts) == Some(CreateTable(table, defs))
  {
  }

  lemma {:induction false} CreateReads(ts: seq<Token>, table: string, defs: seq<ColumnDef>)
    requires defs != [] && WordsAt(ts, 0, CreateWords(table, defs))
    ensures TypeAt(ts, 0) == Key(CREATE) && CreateTableAt(ts) == Some(CreateTable(table, defs))
  {
    var ws := DefsWords(defs);
    var list := [SymbolWord(LPAREN)] + ws + [SymbolWord(RPAREN)];
    ThreeWords(ts, KeyWord(CREATE), KeyWord(TABLE), Word(IDENT, table), list);
    BetweenParentheses(ts, 3, ws);
    DefsRead(ts, [], 4, defs);
    assert [] + defs == defs;
    CreateIs(ts, table, defs, 4 + |ws|);
  }

  lemma {:induction false} ColumnListReads(ts: seq<Token>, p: nat, columns: seq<string>)
    requires WordsAt(ts, p, ColumnListWords(columns)) && TypeAt(ts, p + |ColumnListWords(columns)|) == Key(VALUES)
    ensures p <= |ts| && InsertColumnsAt(ts, p) == Some((columns, p + |ColumnListWords(columns)|))
  {
    if columns != [] {
      var names := NamesWords(columns);
      BetweenParentheses(ts, p, names);
      NamesRead(ts, [], p + 1, columns);
      assert [] + columns == columns;
    }
  }

  lemma {:induction false} ValuesRead(ts: seq<Token>, p: nat, values: seq<Expr>)
    requires values != [] && forall i :: 0 <= i < |values| ==> Printable(values[i])
    requires WordsAt(ts, p, ValuesWords(values))
    ensures TypeAt(ts, p) == Key(VALUES) && TypeAt(ts, p + 1) == Sym(LPAREN)
    ensures var end := p + 2 + |ExprsWords(values)|;
            ExprsAt(ts, [], p + 2) == Some((values, end)) && TypeAt(ts, end) == Sym(RPAREN)
  {
    var ws := ExprsWords(values);
    WordsSplit(ts, p, [KeyWord(VALUES)], [SymbolWord(LPAREN)] + ws + [SymbolWord(RPAREN)]);
    WordAt(ts, p, KeyWord(VALUES));
    BetweenParentheses(ts, p + 1, ws);
    ExprsRead(ts, [], p + 2, values);
    assert [] + values == values;
  }

  lemma {:induction false} InsertIs(
    ts: seq<Token>, table: string, columns: seq<string>, q: nat, values: seq<Expr>, end: nat)
    requires |ts| >= 3 && ts[0].typ == Key(INSERT) && ts[1].typ == Key(INTO) && ts[2].typ == IDENT
    requires ts[2].literal == table && InsertColumnsAt(ts, 3) == Some((columns, q))
    requires TypeAt(ts, q) == Key(VALUES) && TypeAt(ts, q + 1) == Sym(LPAREN)
    requires ExprsAt(ts, [], q + 2) == Some((values, end)) && TypeAt(ts, end) == Sym(RPAREN)
    ensures TypeAt(ts, 0) == Key(INSERT) && InsertAt(ts) == Some(Insert(table, columns, values))
  {
  }

  lemma {:induction false} InsertReads(ts: seq<Token>, table: string, columns: seq<string>, values: seq<Expr>)
    requires values != [] && forall i :: 0 <= i < |values| ==> Printable(values[i])
    requires WordsAt(ts, 0, InsertWords(table, columns, values))
    ensures TypeAt(ts, 0) == Key(INSERT) && InsertAt(ts) == Some(Insert(table, columns, values))
  {
    var cols := ColumnListWords(columns);
    ThreeWords(ts, KeyWord(INSERT), KeyWord(INTO), Word(IDENT, table), cols + ValuesWords(values));
    WordsSplit(ts, 3, cols, ValuesWords(values));
    var q := 3 + |cols|;
    ValuesRead(ts, q, values);
    ColumnListReads(ts, 3, columns);
    InsertIs(ts, table, columns, q, values, q + 2 + |ExprsWords(values)|);
  }

  lemma {:induction false} FirstWord(es: seq<Expr>)
    requires es != [] && forall i :: 0 <= i < |es| ==> Printable(es[i])
    ensures ExprsWords(es) != [] && ExprsWords(es)[0].typ != Sym(STAR)
  {
    assert ExprWords(es[0])[0].typ != Sym(STAR);
  }

  lemma {:induction false} ProjectionReads(ts: seq<Token>, p: nat, projection: seq<Expr>)
    requires Projectable(projection) && WordsAt(ts, p, ProjectionWords(projection))
    requires TypeAt(ts, p + |ProjectionWords(projection)|) == Key(FROM)
    ensures ProjectionAt(ts, p) == Some((projection, p + |ProjectionWords(projection)|))
  {
    if projection == [Star] {
      WordAt(ts, p, SymbolWord(STAR));
    } else {
      PrimariesRead(ts, [], p, projection);
      assert [] + projection == projection;
      FirstWord(projection);
      NthWord(ts, p, ExprsWords(projection), 0);
    }
  }

  /** A `WHERE` with the condition stands at `p`. */
  predicate WhereAt(ts: seq<Token>, p: nat, e: Expr) {
    TypeAt(ts, p) == Key(WHERE) && ExprAt(ts, p + 1).Some? && ExprAt(ts, p + 1).value.0 == e
  }

  /** The printed condition is read as itself exactly when nothing continues it. */
  lemma {:induction false} WhereReads(ts: seq<Token>, p: nat, e: Expr)
    requires Printable(e) && WordsAt(ts, p, WhereWords(Some(e)))
    ensures TypeAt(ts, p) == Key(WHERE)
    ensures WhereAt(ts, p, e) <==> Ends(ts, p + |WhereWords(Some(e))|)
  {
    WordsSplit(ts, p, [KeyWord(WHERE)], ExprWords(e));
    WordAt(ts, p, KeyWord(WHERE));
    ExprReadsExactly(ts, p + 1, e);
  }

  /** The parts of a `SELECT`, where they stand. */
  lemma {:induction false} SelectParts(ts: seq<Token>, projection: seq<Word>, table: string, where: seq<Word>)
    requires WordsAt(ts, 0, SelectFrame(projection, table, where))
    ensures TypeAt(ts, 0) == Key(SELECT) && WordsAt(ts, 1, projection)
    ensures var q := 1 + |projection|;
            && TypeAt(ts, q) == Key(FROM) && TypeAt(ts, q + 1) == IDENT && ts[q + 1].literal == table
            && WordsAt(ts, q + 2, where)
  {
    var from' := [KeyWord(FROM), Word(IDENT, table)];
    WordsSplit(ts, 0, [KeyWord(SELECT)] + projection + from', where);
    WordsSplit3(ts, 0, [KeyWord(SELECT)], projection, from');
    WordAt(ts, 0, KeyWord(SELECT));
    NthWord(ts, 1 + |projection|, from', 0);
    NthWord(ts, 1 + |projection|, from', 1);
  }

  lemma {:induction false} SelectHead(ts: seq<Token>, projection: seq<Expr>, table: string, where: Option<Expr>)
    returns (q: nat)
    requires Projectable(projection) && (where.Some? ==> Printable(where.value))
    requires WordsAt(ts, 0, SelectWords(projection, table, where))
    ensures TypeAt(ts, 0) == Key(SELECT) && ProjectionAt(ts, 1) == Some((projection, q))
    ensures TypeAt(ts, q) == Key(FROM) && TypeAt(ts, q + 1) == IDENT && ts[q + 1].literal == table
    ensures WordsAt(ts, q + 2, WhereWords(where))
    ensures q + 2 + |WhereWords(where)| == |SelectWords(projection, table, where)|
  {
    SelectParts(ts, ProjectionWords(projection), table, WhereWords(where));
    SelectLength(ProjectionWords(projection), table, WhereWords(where));
    ProjectionReads(ts, 1, projection);
    q := 1 + |ProjectionWords(projection)|;
  }

  lemma {:induction false} SelectLength(projection: seq<Word>, table: string, where: seq<Word>)
    ensures |SelectFrame(projection, table, where)| == 3 + |projection| + |where|
  {
  }

  lemma {:induction false} SelectTail(
    ts: seq<Token>, projection: seq<Expr>, q: nat, table: string, where: Option<Expr>, end: nat)
    requires TypeAt(ts, 0) == Key(SELECT) && ProjectionAt(ts, 1) == Some((projection, q))
    requires TypeAt(ts, q) == Key(FROM) && TypeAt(ts, q + 1) == IDENT && ts[q + 1].literal == table
    requires where.Some? ==> Printable(where.value)
    requires WordsAt(ts, q + 2, WhereWords(where)) && end == q + 2 + |WhereWords(where)|
    ensures var s := Select(projection, table, where);
            SelectAt(ts) == Some(s) <==> !Continued(ts, s, end)
  {
    if where.Some? {
      WhereReads(ts, q + 2, where.value);
    }
  }

  lemma {:induction false} SelectReads(ts: seq<Token>, projection: seq<Expr>, table: string, where: Option<Expr>)
    requires Projectable(projection) && (where.Some? ==> Printable(where.value))
    requires WordsAt(ts, 0, SelectWords(projection, table, where))
    ensures TypeAt(ts, 0) == Key(SELECT)
    ensures var s := Select(projection, table, where);
            SelectAt(ts) == Some(s) <==> !Continued(ts, s, |SelectWords(projection, table, where)|)
  {
    var q := SelectHead(ts, projection, table, where);
    SelectTail(ts, projection, q, table, where, |SelectWords(projection, table, where)|);
  }

  lemma {:induction false} UpdateSplit(ts: seq<Token>, table: string, sets: seq<Word>, where: seq<Word>)
    requires WordsAt(ts, 0, UpdateFrame(table, sets, where))
    ensures |ts| >= 3 && ts[0].typ == Key(UPDATE) && ts[1].typ == IDENT && ts[2].typ == Key(SET)
    ensures ts[1].literal == table
    ensures WordsAt(ts, 3, sets) && WordsAt(ts, 3 + |sets|, where)
    ensures 3 + |sets| + |where| == |UpdateFrame(table, sets, where)|
  {
    ThreeWords(ts, KeyWord(UPDATE), Word(IDENT, table), KeyWord(SET), sets + where);
    WordsSplit(ts, 3, sets, where);
  }

  lemma {:induction false} SetsRead(ts: seq<Token>, p: nat, assignments: seq<Assignment>, q: nat)
    requires assignments != [] && forall i :: 0 <= i < |assignments| ==> Printable(assignments[i].value)
    requires WordsAt(ts, p, AssignmentsWords(assignments)) && q == p + |AssignmentsWords(assignments)|
    requires TypeAt(ts, q) == Key(WHERE)
    ensures AssignmentsAt(ts, [], p) == Some((assignments, q))
  {
    AssignmentsRead(ts, [], p, assignments);
    assert [] + assignments == assignments;
  }

  lemma {:induction false} UpdateIs(ts: seq<Token>, table: string, assignments: seq<Assignment>, q: nat, e: Expr)
    requires |ts| >= 3 && ts[0].typ == Key(UPDATE) && ts[1].typ == IDENT && ts[2].typ == Key(SET)
    requires ts[1].literal == table
    requires AssignmentsAt(ts, [], 3) == Some((assignments, q)) && TypeAt(ts, q) == Key(WHERE)
    ensures UpdateAt(ts) == Some(Update(table, assignments, Some(e))) <==> WhereAt(ts, q, e)
  {
  }

  lemma {:induction false} UpdateTail(ts: seq<Token>, table: string, assignments: seq<Assignment>, q: nat, e: Expr)
    requires |ts| >= 3 && ts[0].typ == Key(UPDATE) && ts[1].typ == IDENT && ts[2].typ == Key(SET)
    requires ts[1].literal == table
    requires assignments != [] && forall i :: 0 <= i < |assignments| ==> Printable(assignments[i].value)
    requires WordsAt(ts, 3, AssignmentsWords(assignments)) && q == 3 + |AssignmentsWords(assignments)|
    requires TypeAt(ts, q) == Key(WHERE)
    ensures UpdateAt(ts) == Some(Update(table, assignments, Some(e))) <==> WhereAt(ts, q, e)
  {
    SetsRead(ts, 3, assignments, q);
    UpdateIs(ts, table, assignments, q, e);
  }

  lemma {:induction false} UpdateParts(ts: seq<Token>, table: string, sets: seq<Word>, e: Expr)
    requires Printable(e) && WordsAt(ts, 0, UpdateFrame(table, sets, WhereWords(Some(e))))
    ensures |ts| >= 3 && ts[0].typ == Key(UPDATE) && ts[1].typ == IDENT && ts[2].typ == Key(SET)
    ensures ts[1].literal == table
    ensures WordsAt(ts, 3, sets) && TypeAt(ts, 3 + |sets|) == Key(WHERE)
    ensures WhereAt(ts, 3 + |sets|, e) <==> Ends(ts, |UpdateFrame(table, sets, WhereWords(Some(e)))|)
  {
    UpdateSplit(ts, table, sets, WhereWords(Some(e)));
    WhereReads(ts, 3 + |sets|, e);
  }

  lemma {:induction false} UpdateReads(ts: seq<Token>, table: string, assignments: seq<Assignment>, e: Expr)
    requires assignments != [] && forall i :: 0 <= i < |assignments| ==> Printable(assignments[i].value)
    requires Printable(e) && WordsAt(ts, 0, UpdateWords(table, assignments, Some(e)))
    ensures TypeAt(ts, 0) == Key(UPDATE)
    ensures UpdateAt(ts) == Some(Update(table, assignments, Some(e)))
            <==> Ends(ts, |UpdateWords(table, assignments, Some(e))|)
  {
    UpdateParts(ts, table, AssignmentsWords(assignments), e);
    UpdateTail(ts, table, assignments, 3 + |AssignmentsWords(assignments)|, e);
  }

  lemma {:induction false} DeleteParts(ts: seq<Token>, table: string, e: Expr)
    requires Printable(e) && WordsAt(ts, 0, DeleteWords(table, Some(e)))
    ensures |ts| >= 3 && ts[0].typ == Key(DELETE) && ts[1].typ == Key(FROM) && ts[2].typ == IDENT
    ensures ts[2].literal == table && TypeAt(ts, 3) == Key(WHERE)
    ensures WhereAt(ts, 3, e) <==> Ends(ts, |DeleteWords(table, Some(e))|)
  {
    ThreeWords(ts, KeyWord(DELETE), KeyWord(FROM), Word(IDENT, table), WhereWords(Some(e)));
    WhereReads(ts, 3, e);
  }

  lemma {:induction false} DeleteReads(ts: seq<Token>, table: string, e: Expr)
    requires Printable(e) && WordsAt(ts, 0, DeleteWords(table, Some(e)))
    ensures TypeAt(ts, 0) == Key(DELETE)
    ensures DeleteAt(ts) == Some(Delete(table, Some(e))) <==> Ends(ts, |DeleteWords(table, Some(e))|)
  {
    DeleteParts(ts, table, e);
  }

  /** The production the first token selects yields the statement. */
  predicate ReadAs(ts: seq<Token>, s: Statement) {
    match s
    case CreateTable(_, _) => TypeAt(ts, 0) == Key(CREATE) && CreateTableAt(ts) == Some(s)
    case Insert(_, _, _) => TypeAt(ts, 0) == Key(INSERT) && InsertAt(ts) == Some(s)
    case Select(_, _, _) => TypeAt(ts, 0) == Key(SELECT) && SelectAt(ts) == Some(s)
    case Update(_, _, _) => TypeAt(ts, 0) == Key(UPDATE) && UpdateAt(ts) == Some(s)
    case Delete(_, _) => TypeAt(ts, 0) == Key(DELETE) && DeleteAt(ts) == Some(s)
  }

  lemma {:induction false} ReadAsStatement(ts: seq<Token>, s: Statement)
    ensures StatementAt(ts) == Some(s) <==> ReadAs(ts, s)
  {
  }

  lemma {:induction false} WordsReadAs(ts: seq<Token>, s: Statement)
    requires WellFormed(s) && WordsAt(ts, 0, StatementWords(s))
    ensures ReadAs(ts, s) <==> !Continued(ts, s, |StatementWords(s)|)
  {
    match s
    case CreateTable(table, defs) => CreateReads(ts, table, defs);
    case Insert(table, columns, values) => InsertReads(ts, table, columns, values);
    case Select(projection, table, where) => SelectReads(ts, projection, table, where);
    case Update(table, assignments, where) => UpdateReads(ts, table, assignments, where.value);
    case Delete(table, where) => DeleteReads(ts, table, where.value);
  }

  /**
   The words of a statement, with any tokens behind them, are read as that
   statement exactly when the first of those tokens does not continue it.
   */
  lemma {:induction false} StatementReads(ts: seq<Token>, s: Statement)
    requires WellFormed(s) && WordsAt(ts, 0, StatementWords(s))
    ensures StatementAt(ts) == Some(s) <==> !Continued(ts, s, |StatementWords(s)|)
  {
    WordsReadAs(ts, s);
    ReadAsStatement(ts, s);
  }
}
