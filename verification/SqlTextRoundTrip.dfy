/**
 From statement to text and back: parsing undoes printing, for every
 well-formed statement and every spelling of its keywords; and what a parsed
 statement says about the text it came from.
 */
module SqlTextRoundTrip {
  import opened Common
  import opened SqlTokens
  import opened SqlKeywords
  import opened SqlAst
  import opened SqlLexerFacts
  import opened SqlParser
  import opened SqlPrinter
  import opened SqlRoundTrip
  import opened SqlStatementRoundTrip
  import SqlLexer

  // ---------------------------------------------------------------- every printed word can be written

  predicate Sound(w: Word) {
    match w.typ
    case IDENT => IsIdentifier(w.literal)
    case NUMBER => AllDigits(w.literal)
    case EOF => false
    case _ => true
  }

  predicate AllSound(ws: seq<Word>) {
    forall i :: 0 <= i < |ws| ==> Sound(ws[i])
  }

  lemma {:induction false} SoundJoin(a: seq<Word>, b: seq<Word>)
    requires AllSound(a) && AllSound(b)
    ensures AllSound(a + b)
  {
  }

  lemma {:induction false} SoundJoin3(a: seq<Word>, b: seq<Word>, c: seq<Word>)
    requires AllSound(a) && AllSound(b) && AllSound(c)
    ensures AllSound(a + b + c)
  {
  }

  lemma {:induction false} LeafSound(e: Expr)
    requires Printable(e) && !e.Binary?
    ensures AllSound(ExprWords(e))
  {
    if e.Literal? && e.value.IntValue? {
      DecimalReads(e.value.n);
    }
  }

  lemma {:induction false} ExprSound(e: Expr)
    requires Printable(e)
    ensures AllSound(ExprWords(e))
    decreases e
  {
    if e.Binary? {
      ExprSound(e.left);
      ExprSound(e.right);
      SoundJoin3(ExprWords(e.left), [OperatorWord(e.op)], ExprWords(e.right));
      SoundJoin3([SymbolWord(LPAREN)], BareWords(e), [SymbolWord(RPAREN)]);
    } else {
      LeafSound(e);
    }
  }

  lemma {:induction false} ExprsSound(es: seq<Expr>)
    requires es != [] && forall i :: 0 <= i < |es| ==> Printable(es[i])
    ensures AllSound(ExprsWords(es))
    decreases |es|
  {
    ExprSound(es[0]);
    if |es| > 1 {
      ExprsSound(es[1..]);
      SoundJoin3(ExprWords(es[0]), [SymbolWord(COMMA)], ExprsWords(es[1..]));
    }
  }

  lemma {:induction false} NamesSound(names: seq<string>)
    requires names != [] && forall i :: 0 <= i < |names| ==> IsIdentifier(names[i])
    ensures AllSound(NamesWords(names))
    decreases |names|
  {
    if |names| > 1 {
      NamesSound(names[1..]);
      SoundJoin3([Word(IDENT, names[0])], [SymbolWord(COMMA)], NamesWords(names[1..]));
    }
  }

  lemma {:induction false} AssignmentSound(a: Assignment)
    requires IsIdentifier(a.column) && Printable(a.value)
    ensures AllSound(AssignmentWords(a))
  {
    ExprSound(a.value);
    SoundJoin3([Word(IDENT, a.column)], [SymbolWord(EQ)], ExprWords(a.value));
  }

  lemma {:induction false} AssignmentsSound(xs: seq<Assignment>)
    requires xs != [] && forall i :: 0 <= i < |xs| ==> IsIdentifier(xs[i].column) && Printable(xs[i].value)
    ensures AllSound(AssignmentsWords(xs))
    decreases |xs|
  {
    AssignmentSound(xs[0]);
    if |xs| > 1 {
      AssignmentsSound(xs[1..]);
      SoundJoin3(AssignmentWords(xs[0]), [SymbolWord(COMMA)], AssignmentsWords(xs[1..]));
    }
  }

  lemma {:induction false} DefSound(d: ColumnDef)
    requires IsIdentifier(d.name)
    ensures AllSound(DefWords(d))
  {
    SoundJoin3([Word(IDENT, d.name), TypeWord(d.typ)], PrimaryKeyWords(d.primaryKey), NotNullWords(d.notNull));
  }

  lemma {:induction false} DefsSound(ds: seq<ColumnDef>)
    requires ds != [] && forall i :: 0 <= i < |ds| ==> IsIdentifier(ds[i].name)
    ensures AllSound(DefsWords(ds))
    decreases |ds|
  {
    DefSound(ds[0]);
    if |ds| > 1 {
      DefsSound(ds[1..]);
      SoundJoin3(DefWords(ds[0]), [SymbolWord(COMMA)], DefsWords(ds[1..]));
    }
  }

  lemma {:induction false} WhereSound(where: Option<Expr>)
    requires where.Some? ==> Printable(where.value)
    ensures AllSound(WhereWords(where))
  {
    if where.Some? {
      ExprSound(where.value);
      SoundJoin([KeyWord(WHERE)], ExprWords(where.value));
    }
  }

  lemma {:induction false} CreateSound(table: string, defs: seq<ColumnDef>)
    requires WellFormed(CreateTable(table, defs))
    ensures AllSound(CreateWords(table, defs))
  {
    DefsSound(defs);
    SoundJoin3([SymbolWord(LPAREN)], DefsWords(defs), [SymbolWord(RPAREN)]);
  }

  lemma {:induction false} InsertSound(table: string, columns: seq<string>, values: seq<Expr>)
    requires WellFormed(Insert(table, columns, values))
    ensures AllSound(InsertWords(table, columns, values))
  {
    ExprsSound(values);
    SoundJoin3([SymbolWord(LPAREN)], ExprsWords(values), [SymbolWord(RPAREN)]);
    SoundJoin([KeyWord(VALUES)], [SymbolWord(LPAREN)] + ExprsWords(values) + [SymbolWord(RPAREN)]);
    if columns != [] {
      NamesSound(columns);
      SoundJoin3([SymbolWord(LPAREN)], NamesWords(columns), [SymbolWord(RPAREN)]);
    }
    SoundJoin(ColumnListWords(columns), ValuesWords(values));
  }

  lemma {:induction false} SelectSound(projection: seq<Expr>, table: string, where: Option<Expr>)
    requires WellFormed(Select(projection, table, where))
    ensures AllSound(SelectWords(projection, table, where))
  {
    if projection != [Star] {
      ExprsSound(projection);
    }
    WhereSound(where);
    var head := [KeyWord(FROM), Word(IDENT, table)];
    SoundJoin3([KeyWord(SELECT)], ProjectionWords(projection), head);
  }

  lemma {:induction false} UpdateSound(table: string, assignments: seq<Assignment>, where: Option<Expr>)
    requires WellFormed(Update(table, assignments, where))
    ensures AllSound(UpdateWords(table, assignments, where))
  {
    AssignmentsSound(assignments);
    WhereSound(where);
    SoundJoin(AssignmentsWords(assignments), WhereWords(where));
  }

  lemma {:induction false} DeleteSound(table: string, where: Option<Expr>)
    requires WellFormed(Delete(table, where))
    ensures AllSound(DeleteWords(table, where))
  {
    WhereSound(where);
  }

  lemma {:induction false} StatementSound(s: Statement)
    requires WellFormed(s)
    ensures AllSound(StatementWords(s))
  {
    match s
    case CreateTable(table, defs) => CreateSound(table, defs);
    case Insert(table, columns, values) => InsertSound(table, columns, values);
    case Select(projection, table, where) => SelectSound(projection, table, where);
    case Update(table, assignments, where) => UpdateSound(table, assignments, where);
    case Delete(table, where) => DeleteSound(table, where);
  }

  lemma {:induction false} SpelledIsWritable(w: Word, v: Word)
    requires Spells(w, v) && Sound(v)
    ensures Writable(w)
  {
    if w.typ.Key? {
      AnyCaseIsKeyword(w.typ.keyword, w.literal);
    }
  }

  // ---------------------------------------------------------------- the theorem

  /** The statement's words stand first among the tokens, and the token behind them is the next word's, or the end. */
  lemma {:induction false} SpelledWordsStand(ts: seq<Token>, ws: seq<Word>, vs: seq<Word>, extra: seq<Word>)
    requires Reads(ts, ws + extra) && SpellsAll(ws, vs)
    ensures WordsAt(ts, 0, vs)
    ensures TypeAt(ts, |vs|) == if extra == [] then EOF else extra[0].typ
  {
    forall i | 0 <= i < |vs| ensures TokenIs(ts[0 + i], vs[i]) {
      assert Spells(ws[i], vs[i]);
      assert (ws + extra)[i] == ws[i];
    }
    if extra != [] {
      assert (ws + extra)[|ws|] == extra[0];
    }
  }

  lemma {:induction false} SpelledTextIsRead(ws: seq<Word>, vs: seq<Word>, extra: seq<Word>)
    requires SpellsAll(ws, vs) && AllSound(vs) && forall i :: 0 <= i < |extra| ==> Writable(extra[i])
    ensures ReadsOk(SqlLexer.Lex(" " + Render(ws + extra)), ws + extra)
  {
    forall i | 0 <= i < |ws + extra| ensures Writable((ws + extra)[i]) {
      if i < |ws| {
        assert Spells(ws[i], vs[i]);
        SpelledIsWritable(ws[i], vs[i]);
      }
    }
    LexUndoesRender(ws + extra);
  }

  /** The next word would be read as part of the statement: a `WHERE`, or an operator behind a condition. */
  predicate ContinuedBy(s: Statement, extra: seq<Word>) {
    extra != [] && match s
    case CreateTable(_, _) => false
    case Insert(_, _, _) => false
    case Select(_, _, None) => extra[0].typ == Key(WHERE)
    case _ => ComparisonOf(extra[0].typ).Some? || ConnectiveOf(extra[0].typ).Some?
  }

  /**
   A statement followed by any words parses to that statement exactly when the
   next word does not continue it; everything behind it is ignored.
   */
  lemma {:induction false} TrailingWordsExactly(s: Statement, ws: seq<Word>, extra: seq<Word>)
    requires WellFormed(s) && SpellsAll(ws, StatementWords(s)) && forall i :: 0 <= i < |extra| ==> Writable(extra[i])
    ensures Parse(" " + Render(ws + extra)) == Some(s) <==> !ContinuedBy(s, extra)
  {
    var vs := StatementWords(s);
    StatementSound(s);
    SpelledTextIsRead(ws, vs, extra);
    var ts := SqlLexer.Lex(" " + Render(ws + extra)).value;
    SpelledWordsStand(ts, ws, vs, extra);
    StatementReads(ts, s);
  }

  /** Parsing undoes printing: every text of a statement parses to exactly that statement. */
  lemma {:induction false} ParseUndoesPrint(s: Statement, ws: seq<Word>)
    requires WellFormed(s) && SpellsAll(ws, StatementWords(s))
    ensures Parse(" " + Render(ws)) == Some(s)
  {
    assert ws + [] == ws;
    TrailingWordsExactly(s, ws, []);
  }

  /** Whatever the statement, an identifier behind it goes unnoticed, and so does all that follows. */
  lemma {:induction false} JunkIsIgnored(s: Statement, ws: seq<Word>, junk: string, extra: seq<Word>)
    requires WellFormed(s) && SpellsAll(ws, StatementWords(s)) && IsIdentifier(junk)
    requires forall i :: 0 <= i < |extra| ==> Writable(extra[i])
    ensures Parse(" " + Render(ws + ([Word(IDENT, junk)] + extra))) == Some(s)
  {
    TrailingWordsExactly(s, ws, [Word(IDENT, junk)] + extra);
  }

  // ---------------------------------------------------------------- what a text's tokens hold

  /** The table name of a parsed statement is an identifier of the text. */
  lemma {:induction false} TableIsToken(ts: seq<Token>, s: Statement) returns (i: nat)
    requires StatementAt(ts) == Some(s)
    ensures i < |ts| && ts[i].typ == IDENT && ts[i].literal == s.table
  {
    match s
    case Select(_, _, _) => i := ProjectionAt(ts, 1).value.1 + 1;
    case Update(_, _, _) => i := 1;
    case _ => i := 2;
  }

  lemma {:induction false} ParsedTableIsIdentifier(input: string, s: Statement)
    requires Parse(input) == Some(s)
    ensures IsIdentifier(s.table)
  {
    var ts := SqlLexer.Lex(input).value;
    var i := TableIsToken(ts, s);
    LexIsFaithful(input);
    EveryTokenStands(input, 0, ts, i);
  }

  lemma {:induction false} UpperConnectives()
    ensures ToUpper("and") == "AND" && ToUpper("or") == "OR"
  {
    assert ToUpper("and") == ['A', 'N', 'D'];
    assert ToUpper("or") == ['O', 'R'];
  }

  lemma {:induction false} ConnectiveText(k: Keyword, op: Operator)
    requires ConnectiveOf(Key(k)) == Some(op)
    ensures ToUpper(KeywordText(k)) == OperatorText(op)
  {
    UpperConnectives();
  }

  lemma {:induction false} ComparisonText(t: Token, op: Operator)
    requires ComparisonOf(t.typ) == Some(op) && t.literal == SymbolText(t.typ.symbol)
    ensures t.literal == OperatorText(op)
  {
  }

  /** The operator of an expression is its token's literal, in upper case for a connective. */
  lemma {:induction false} OperatorIsToken(input: string, ts: seq<Token>, i: nat, op: Operator)
    requires SqlLexer.Lex(input) == Ok(ts) && i < |ts|
    ensures ConnectiveOf(ts[i].typ) == Some(op) ==> ToUpper(ts[i].literal) == OperatorText(op)
    ensures ComparisonOf(ts[i].typ) == Some(op) ==> ts[i].literal == OperatorText(op)
  {
    LexIsFaithful(input);
    EveryTokenStands(input, 0, ts, i);
    if ConnectiveOf(ts[i].typ) == Some(op) {
      KeywordTypeText(ts[i].literal, ts[i].typ.keyword);
      ConnectiveText(ts[i].typ.keyword, op);
    } else if ComparisonOf(ts[i].typ) == Some(op) {
      ComparisonText(ts[i], op);
    }
  }
}
