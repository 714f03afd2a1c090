/**
 From text to statement and back: whatever the parser accepts is a well-formed
 statement, so that printing it and parsing the print gives it again.
 */
module SqlParsed {
  import opened Common
  import opened SqlTokens
  import opened SqlKeywords
  import opened SqlAst
  import opened SqlLexerFacts
  import opened SqlParser
  import opened SqlPrinter
  import opened SqlTextRoundTrip
  import SqlLexer

  /** Identifier tokens hold identifiers. */
  predicate Named(ts: seq<Token>) {
    forall i :: 0 <= i < |ts| ==> ts[i].typ == IDENT ==> IsIdentifier(ts[i].literal)
  }

  predicate AllPrintable(es: seq<Expr>) {
    forall i :: 0 <= i < |es| ==> Printable(es[i])
  }

  // ---------------------------------------------------------------- expressions

  lemma {:induction false} PrimaryPrintable(ts: seq<Token>, p: nat)
    requires Named(ts) && PrimaryAt(ts, p).Some?
    ensures Printable(PrimaryAt(ts, p).value.0)
    decreases |ts| - p, 0
  {
    if TypeAt(ts, p) == Sym(LPAREN) {
      ExprPrintable(ts, p + 1);
    }
  }

  lemma {:induction false} ComparePrintable(ts: seq<Token>, p: nat)
    requires Named(ts) && CompareAt(ts, p).Some?
    ensures Printable(CompareAt(ts, p).value.0)
    decreases |ts| - p, 1
  {
    PrimaryPrintable(ts, p);
    var q := PrimaryAt(ts, p).value.1;
    if ComparisonOf(TypeAt(ts, q)).Some? {
      PrimaryPrintable(ts, q + 1);
    }
  }

  lemma {:induction false} JoinedPrintable(ts: seq<Token>, left: Expr, p: nat)
    requires Named(ts) && Printable(left) && p <= |ts| && JoinedAt(ts, left, p).Some?
    ensures Printable(JoinedAt(ts, left, p).value.0)
    decreases |ts| - p, 1
  {
    var op := ConnectiveOf(TypeAt(ts, p));
    if op.Some? {
      ComparePrintable(ts, p + 1);
      var right := CompareAt(ts, p + 1).value;
      JoinedPrintable(ts, Binary(left, op.value, right.0), right.1);
    }
  }

  lemma {:induction false} ExprPrintable(ts: seq<Token>, p: nat)
    requires Named(ts) && ExprAt(ts, p).Some?
    ensures Printable(ExprAt(ts, p).value.0)
    decreases |ts| - p, 2
  {
    ComparePrintable(ts, p);
    var left := CompareAt(ts, p).value;
    JoinedPrintable(ts, left.0, left.1);
  }

  // ---------------------------------------------------------------- lists

  lemma {:induction false} ExprsPrintable(ts: seq<Token>, acc: seq<Expr>, p: nat)
    requires Named(ts) && AllPrintable(acc) && ExprsAt(ts, acc, p).Some?
    ensures var es := ExprsAt(ts, acc, p).value.0;
            es != [] && AllPrintable(es)
    decreases |ts| - p
  {
    ExprPrintable(ts, p);
    var e := ExprAt(ts, p).value;
    if TypeAt(ts, e.1) == Sym(COMMA) {
      ExprsPrintable(ts, acc + [e.0], e.1 + 1);
    }
  }

  lemma {:induction false} PrimariesPrintable(ts: seq<Token>, acc: seq<Expr>, p: nat)
    requires Named(ts) && AllPrintable(acc) && PrimariesAt(ts, acc, p).Some?
    ensures var es := PrimariesAt(ts, acc, p).value.0;
            es != [] && AllPrintable(es)
    decreases |ts| - p
  {
    PrimaryPrintable(ts, p);
    var e := PrimaryAt(ts, p).value;
    if TypeAt(ts, e.1) == Sym(COMMA) {
      PrimariesPrintable(ts, acc + [e.0], e.1 + 1);
    }
  }

  predicate AllIdentifiers(names: seq<string>) {
    forall i :: 0 <= i < |names| ==> IsIdentifier(names[i])
  }

  lemma {:induction false} NamesAreIdentifiers(ts: seq<Token>, acc: seq<string>, p: nat)
    requires Named(ts) && AllIdentifiers(acc) && NamesAt(ts, acc, p).Some?
    ensures AllIdentifiers(NamesAt(ts, acc, p).value.0)
    decreases |ts| - p
  {
    if TypeAt(ts, p + 1) == Sym(COMMA) {
      NamesAreIdentifiers(ts, acc + [ts[p].literal], p + 2);
    }
  }

  predicate AllAssignable(xs: seq<Assignment>) {
    forall i :: 0 <= i < |xs| ==> IsIdentifier(xs[i].column) && Printable(xs[i].value)
  }

  lemma {:induction false} AssignmentsAssignable(ts: seq<Token>, acc: seq<Assignment>, p: nat)
    requires Named(ts) && AllAssignable(acc) && AssignmentsAt(ts, acc, p).Some?
    ensures var xs := AssignmentsAt(ts, acc, p).value.0;
            xs != [] && AllAssignable(xs)
    decreases |ts| - p
  {
    ExprPrintable(ts, p + 2);
    var a := AssignmentAt(ts, p).value;
    if TypeAt(ts, a.1) == Sym(COMMA) {
      AssignmentsAssignable(ts, acc + [a.0], a.1 + 1);
    }
  }

  lemma {:induction false} ConstraintsKeepName(ts: seq<Token>, def: ColumnDef, p: nat)
    requires p <= |ts| && ConstraintsAt(ts, def, p).Some?
    ensures ConstraintsAt(ts, def, p).value.0.name == def.name
    decreases |ts| - p
  {
    if TypeAt(ts, p) == Key(PRIMARY) {
      ConstraintsKeepName(ts, def.(primaryKey := true), p + 2);
    } else if TypeAt(ts, p) == Key(NOT) {
      ConstraintsKeepName(ts, def.(notNull := true), p + 2);
    }
  }

  predicate AllColumns(ds: seq<ColumnDef>) {
    forall i :: 0 <= i < |ds| ==> IsIdentifier(ds[i].name)
  }

  lemma {:induction false} DefsAreColumns(ts: seq<Token>, acc: seq<ColumnDef>, p: nat)
    requires Named(ts) && AllColumns(acc) && ColumnDefsAt(ts, acc, p).Some?
    ensures var ds := ColumnDefsAt(ts, acc, p).value.0;
            ds != [] && AllColumns(ds)
    decreases |ts| - p
  {
    ConstraintsKeepName(ts, ColumnDef(ts[p].literal, ColumnTypeOf(TypeAt(ts, p + 1)).value, false, false), p + 2);
    var d := ColumnDefAt(ts, p).value;
    if TypeAt(ts, d.1) == Sym(COMMA) {
      DefsAreColumns(ts, acc + [d.0], d.1 + 1);
    }
  }

  // ---------------------------------------------------------------- statements

  lemma {:induction false} InsertFits(table: string, names: seq<string>, values: seq<Expr>)
    requires IsIdentifier(table) && AllIdentifiers(names) && values != [] && AllPrintable(values)
    ensures WellFormed(Insert(table, names, values))
  {
  }

  lemma {:induction false} InsertWellFormed(ts: seq<Token>, s: Statement)
    requires Named(ts) && InsertAt(ts) == Some(s)
    ensures WellFormed(s)
  {
    var cols := InsertColumnsAt(ts, 3).value;
    if TypeAt(ts, 3) == Sym(LPAREN) {
      NamesAreIdentifiers(ts, [], 4);
    }
    ExprsPrintable(ts, [], cols.1 + 2);
    InsertFits(ts[2].literal, cols.0, ExprsAt(ts, [], cols.1 + 2).value.0);
  }

  lemma {:induction false} ProjectionProjects(ts: seq<Token>, p: nat)
    requires Named(ts) && ProjectionAt(ts, p).Some?
    ensures Projectable(ProjectionAt(ts, p).value.0)
  {
    if TypeAt(ts, p) != Sym(STAR) {
      PrimariesPrintable(ts, [], p);
    }
  }

  lemma {:induction false} SelectFits(projection: seq<Expr>, table: string, where: Option<Expr>)
    requires Projectable(projection) && IsIdentifier(table) && (where.Some? ==> Printable(where.value))
    ensures WellFormed(Select(projection, table, where))
  {
  }

  lemma {:induction false} SelectWellFormed(ts: seq<Token>, s: Statement)
    requires Named(ts) && SelectAt(ts) == Some(s)
    ensures WellFormed(s)
  {
    ProjectionProjects(ts, 1);
    var q := ProjectionAt(ts, 1).value.1;
    if s.where.Some? {
      ExprPrintable(ts, q + 3);
    }
    SelectFits(s.projection, ts[q + 1].literal, s.where);
  }

  lemma {:induction false} UpdateFits(table: string, xs: seq<Assignment>, where: Expr)
    requires IsIdentifier(table) && xs != [] && AllAssignable(xs) && Printable(where)
    ensures WellFormed(Update(table, xs, Some(where)))
  {
  }

  lemma {:induction false} UpdateWellFormed(ts: seq<Token>, s: Statement)
    requires Named(ts) && UpdateAt(ts) == Some(s)
    ensures WellFormed(s)
  {
    AssignmentsAssignable(ts, [], 3);
    var sets := AssignmentsAt(ts, [], 3).value;
    ExprPrintable(ts, sets.1 + 1);
    UpdateFits(ts[1].literal, sets.0, ExprAt(ts, sets.1 + 1).value.0);
  }

  lemma {:induction false} StatementWellFormed(ts: seq<Token>, s: Statement)
    requires Named(ts) && StatementAt(ts) == Some(s)
    ensures WellFormed(s)
  {
    match s
    case CreateTable(_, _) => DefsAreColumns(ts, [], 4);
    case Insert(_, _, _) => InsertWellFormed(ts, s);
    case Select(_, _, _) => SelectWellFormed(ts, s);
    case Update(_, _, _) => UpdateWellFormed(ts, s);
    case Delete(_, _) => ExprPrintable(ts, 4);
  }

  /** The parser accepts well-formed statements only. */
  lemma {:induction false} ParsedIsWellFormed(input: string, s: Statement)
    requires Parse(input) == Some(s)
    ensures WellFormed(s)
  {
    var ts := SqlLexer.Lex(input).value;
    LexIsFaithful(input);
    forall i | 0 <= i < |ts| ensures ts[i].typ == IDENT ==> IsIdentifier(ts[i].literal) {
      EveryTokenStands(input, 0, ts, i);
    }
    StatementWellFormed(ts, s);
  }

  // ---------------------------------------------------------------- printing what was parsed

  /** A word as it is usually written: keywords in lower case. */
  function Spelled(v: Word): Word {
    match v.typ
    case Key(k) => Word(v.typ, KeywordText(k))
    case Sym(s) => Word(v.typ, SymbolText(s))
    case _ => v
  }

  lemma {:induction false} KeywordIsLower(k: Keyword)
    ensures ToLower(KeywordText(k)) == KeywordText(k)
  {
    KeywordLetters(k);
  }

  function Print(s: Statement): string
    requires WellFormed(s)
  {
    var vs := StatementWords(s);
    " " + Render(seq(|vs|, i requires 0 <= i < |vs| => Spelled(vs[i])))
  }

  lemma {:induction false} PrintParses(s: Statement)
    requires WellFormed(s)
    ensures Parse(Print(s)) == Some(s)
  {
    var vs := StatementWords(s);
    var ws := seq(|vs|, i requires 0 <= i < |vs| => Spelled(vs[i]));
    forall i | 0 <= i < |vs| ensures Spells(ws[i], vs[i]) {
      if vs[i].typ.Key? {
        KeywordIsLower(vs[i].typ.keyword);
      }
    }
    ParseUndoesPrint(s, ws);
  }

  /** Every accepted text says the same as the print of what it was parsed to. */
  lemma {:induction false} ReprintSaysTheSame(input: string)
    requires Parse(input).Some?
    ensures WellFormed(Parse(input).value) && Parse(Print(Parse(input).value)) == Parse(input)
  {
    ParsedIsWellFormed(input, Parse(input).value);
    PrintParses(Parse(input).value);
  }
}
