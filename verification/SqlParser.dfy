/**
 The recursive-descent parser: what each production yields from a position of
 the token list, and the object that descends with a position.

 A statement may be followed by further tokens; they are not looked at.
 */
module SqlParser {
  import opened Common
  import opened SqlTokens
  import opened SqlAst
  import SqlLexer

  // ---------------------------------------------------------------- productions

  function TypeAt(ts: seq<Token>, p: nat): TokenType {
    if p < |ts| then ts[p].typ else EOF
  }

  function LiteralAt(ts: seq<Token>, p: nat): string {
    if p < |ts| then ts[p].literal else ""
  }

  predicate AllDigits(s: string) {
    s != "" && forall i :: 0 <= i < |s| ==> IsDigit(s[i])
  }

  function DigitValue(c: char): nat
    requires IsDigit(c)
  {
    c as int - '0' as int
  }

  function DigitsValue(s: string): nat
    requires forall i :: 0 <= i < |s| ==> IsDigit(s[i])
  {
    if s == "" then 0 else DigitsValue(s[..|s| - 1]) * 10 + DigitValue(s[|s| - 1])
  }

  /** A decimal number that fits 64 bits. */
  function ParseInt(s: string): Option<int> {
    if AllDigits(s) && DigitsValue(s) <= MAX_INT64 then Some(DigitsValue(s)) else None
  }

  function ComparisonOf(t: TokenType): Option<Operator> {
    match t
    case Sym(EQ) => Some(OpEq)
    case Sym(NEQ) => Some(OpNeq)
    case Sym(LT) => Some(OpLt)
    case Sym(GT) => Some(OpGt)
    case Sym(LTE) => Some(OpLte)
    case Sym(GTE) => Some(OpGte)
    case _ => None
  }

  function ConnectiveOf(t: TokenType): Option<Operator> {
    match t
    case Key(AND) => Some(OpAnd)
    case Key(OR) => Some(OpOr)
    case _ => None
  }

  function PrimaryAt(ts: seq<Token>, p: nat): (r: Option<(Expr, nat)>)
    ensures r.Some? ==> p < r.value.1 <= |ts|
    decreases |ts| - p, 0
  {
    match TypeAt(ts, p)
    case NUMBER =>
      var n := ParseInt(ts[p].literal);
      if n.None? then None else Some((Literal(IntValue(n.value)), p + 1))
    case STRING => Some((Literal(TextValue(ts[p].literal)), p + 1))
    case IDENT => Some((Column(ts[p].literal), p + 1))
    case Key(TRUE) => Some((Literal(BoolValue(true)), p + 1))
    case Key(FALSE) => Some((Literal(BoolValue(false)), p + 1))
    case Key(NULL) => Some((Literal(NullValue), p + 1))
    case Sym(LPAREN) =>
      var e := ExprAt(ts, p + 1);
      if e.None? || TypeAt(ts, e.value.1) != Sym(RPAREN) then None else Some((e.value.0, e.value.1 + 1))
    case _ => None
  }

  function CompareAt(ts: seq<Token>, p: nat): (r: Option<(Expr, nat)>)
    ensures r.Some? ==> p < r.value.1 <= |ts|
    decreases |ts| - p, 1
  {
    var left := PrimaryAt(ts, p);
    if left.None? then None
    else
      var q := left.value.1;
      var op := ComparisonOf(TypeAt(ts, q));
      if op.None? then left
      else
        var right := PrimaryAt(ts, q + 1);
        if right.None? then None
        else Some((Binary(left.value.0, op.value, right.value.0), right.value.1))
  }

  /** The comparisons joined to `left` from `p` on, all at one level. */
  function JoinedAt(ts: seq<Token>, left: Expr, p: nat): (r: Option<(Expr, nat)>)
    requires p <= |ts|
    ensures r.Some? ==> p <= r.value.1 <= |ts|
    decreases |ts| - p, 1
  {
    var op := ConnectiveOf(TypeAt(ts, p));
    if op.None? then Some((left, p))
    else
      var right := CompareAt(ts, p + 1);
      if right.None? then None
      else JoinedAt(ts, Binary(left, op.value, right.value.0), right.value.1)
  }

  function ExprAt(ts: seq<Token>, p: nat): (r: Option<(Expr, nat)>)
    ensures r.Some? ==> p < r.value.1 <= |ts|
    decreases |ts| - p, 2
  {
    var left := CompareAt(ts, p);
    if left.None? then None else JoinedAt(ts, left.value.0, left.value.1)
  }

  /** Comma-separated lists; `acc` holds what has been read. */
  function ExprsAt(ts: seq<Token>, acc: seq<Expr>, p: nat): (r: Option<(seq<Expr>, nat)>)
    ensures r.Some? ==> p < r.value.1 <= |ts|
    decreases |ts| - p
  {
    var e := ExprAt(ts, p);
    if e.None? then None
    else if TypeAt(ts, e.value.1) == Sym(COMMA) then ExprsAt(ts, acc + [e.value.0], e.value.1 + 1)
    else Some((acc + [e.value.0], e.value.1))
  }

  function PrimariesAt(ts: seq<Token>, acc: seq<Expr>, p: nat): (r: Option<(seq<Expr>, nat)>)
    ensures r.Some? ==> p < r.value.1 <= |ts|
    decreases |ts| - p
  {
    var e := PrimaryAt(ts, p);
    if e.None? then None
    else if TypeAt(ts, e.value.1) == Sym(COMMA) then PrimariesAt(ts, acc + [e.value.0], e.value.1 + 1)
    else Some((acc + [e.value.0], e.value.1))
  }

  function NamesAt(ts: seq<Token>, acc: seq<string>, p: nat): (r: Option<(seq<string>, nat)>)
    ensures r.Some? ==> p < r.value.1 <= |ts|
    decreases |ts| - p
  {
    if TypeAt(ts, p) != IDENT then None
    else if TypeAt(ts, p + 1) == Sym(COMMA) then NamesAt(ts, acc + [ts[p].literal], p + 2)
    else Some((acc + [ts[p].literal], p + 1))
  }

  function AssignmentAt(ts: seq<Token>, p: nat): (r: Option<(Assignment, nat)>)
    ensures r.Some? ==> p < r.value.1 <= |ts|
  {
    if TypeAt(ts, p) != IDENT || TypeAt(ts, p + 1) != Sym(EQ) then None
    else
      var e := ExprAt(ts, p + 2);
      if e.None? then None else Some((Assignment(ts[p].literal, e.value.0), e.value.1))
  }

  function AssignmentsAt(ts: seq<Token>, acc: seq<Assignment>, p: nat): (r: Option<(seq<Assignment>, nat)>)
    ensures r.Some? ==> p < r.value.1 <= |ts|
    decreases |ts| - p
  {
    var a := AssignmentAt(ts, p);
    if a.None? then None
    else if TypeAt(ts, a.value.1) == Sym(COMMA) then AssignmentsAt(ts, acc + [a.value.0], a.value.1 + 1)
    else Some((acc + [a.value.0], a.value.1))
  }

  function ColumnTypeOf(t: TokenType): Option<ColumnType> {
    match t
    case Key(INT) => Some(TypeInt)
    case Key(TEXT) => Some(TypeText)
    case Key(BOOL) => Some(TypeBool)
    case _ => None
  }

  /** Column constraints in any order and number, added to those already read. */
  function ConstraintsAt(ts: seq<Token>, def: ColumnDef, p: nat): (r: Option<(ColumnDef, nat)>)
    requires p <= |ts|
    ensures r.Some? ==> p <= r.value.1 <= |ts|
    decreases |ts| - p
  {
    if TypeAt(ts, p) == Key(PRIMARY) then
      if TypeAt(ts, p + 1) != Key(KEY) then None else ConstraintsAt(ts, def.(primaryKey := true), p + 2)
    else if TypeAt(ts, p) == Key(NOT) then
      if TypeAt(ts, p + 1) != Key(NULL) then None else ConstraintsAt(ts, def.(notNull := true), p + 2)
    else Some((def, p))
  }

  function ColumnDefAt(ts: seq<Token>, p: nat): (r: Option<(ColumnDef, nat)>)
    ensures r.Some? ==> p < r.value.1 <= |ts|
  {
    if TypeAt(ts, p) != IDENT then None
    else
      var typ := ColumnTypeOf(TypeAt(ts, p + 1));
      if typ.None? then None else ConstraintsAt(ts, ColumnDef(ts[p].literal, typ.value, false, false), p + 2)
  }

  function ColumnDefsAt(ts: seq<Token>, acc: seq<ColumnDef>, p: nat): (r: Option<(seq<ColumnDef>, nat)>)
    ensures r.Some? ==> p < r.value.1 <= |ts|
    decreases |ts| - p
  {
    var d := ColumnDefAt(ts, p);
    if d.None? then None
    else if TypeAt(ts, d.value.1) == Sym(COMMA) then ColumnDefsAt(ts, acc + [d.value.0], d.value.1 + 1)
    else Some((acc + [d.value.0], d.value.1))
  }

  function CreateTableAt(ts: seq<Token>): Option<Statement> {
    if TypeAt(ts, 0) != Key(CREATE) || TypeAt(ts, 1) != Key(TABLE) || TypeAt(ts, 2) != IDENT
       || TypeAt(ts, 3) != Sym(LPAREN) then None
    else
      var defs := ColumnDefsAt(ts, [], 4);
      if defs.None? || TypeAt(ts, defs.value.1) != Sym(RPAREN) then None
      else Some(CreateTable(ts[2].literal, defs.value.0))
  }

  /** The optional column list of an `INSERT`. */
  function InsertColumnsAt(ts: seq<Token>, p: nat): (r: Option<(seq<string>, nat)>)
    requires p <= |ts|
    ensures r.Some? ==> p <= r.value.1 <= |ts|
  {
    if TypeAt(ts, p) != Sym(LPAREN) then Some(([], p))
    else
      var names := NamesAt(ts, [], p + 1);
      if names.None? || TypeAt(ts, names.value.1) != Sym(RPAREN) then None
      else Some((names.value.0, names.value.1 + 1))
  }

  function InsertAt(ts: seq<Token>): Option<Statement> {
    if TypeAt(ts, 0) != Key(INSERT) || TypeAt(ts, 1) != Key(INTO) || TypeAt(ts, 2) != IDENT then None
    else
      var cols := InsertColumnsAt(ts, 3);
      if cols.None? then None
      else
        var q := cols.value.1;
        if TypeAt(ts, q) != Key(VALUES) || TypeAt(ts, q + 1) != Sym(LPAREN) then None
        else
          var values := ExprsAt(ts, [], q + 2);
          if values.None? || TypeAt(ts, values.value.1) != Sym(RPAREN) then None
          else Some(Insert(ts[2].literal, cols.value.0, values.value.0))
  }

  function ProjectionAt(ts: seq<Token>, p: nat): (r: Option<(seq<Expr>, nat)>)
    ensures r.Some? ==> p < r.value.1 <= |ts|
  {
    if TypeAt(ts, p) == Sym(STAR) then Some(([Star], p + 1)) else PrimariesAt(ts, [], p)
  }

  function SelectAt(ts: seq<Token>): Option<Statement> {
    if TypeAt(ts, 0) != Key(SELECT) then None
    else
      var cols := ProjectionAt(ts, 1);
      if cols.None? then None
      else
        var q := cols.value.1;
        if TypeAt(ts, q) != Key(FROM) || TypeAt(ts, q + 1) != IDENT then None
        else if TypeAt(ts, q + 2) != Key(WHERE) then Some(Select(cols.value.0, ts[q + 1].literal, None))
        else
          var where := ExprAt(ts, q + 3);
          if where.None? then None
          else Some(Select(cols.value.0, ts[q + 1].literal, Some(where.value.0)))
  }

  function UpdateAt(ts: seq<Token>): Option<Statement> {
    if TypeAt(ts, 0) != Key(UPDATE) || TypeAt(ts, 1) != IDENT || TypeAt(ts, 2) != Key(SET) then None
    else
      var sets := AssignmentsAt(ts, [], 3);
      if sets.None? || TypeAt(ts, sets.value.1) != Key(WHERE) then None
      else
        var where := ExprAt(ts, sets.value.1 + 1);
        if where.None? then None else Some(Update(ts[1].literal, sets.value.0, Some(where.value.0)))
  }

  function DeleteAt(ts: seq<Token>): Option<Statement> {
    if TypeAt(ts, 0) != Key(DELETE) || TypeAt(ts, 1) != Key(FROM) || TypeAt(ts, 2) != IDENT
       || TypeAt(ts, 3) != Key(WHERE) then None
    else
      var where := ExprAt(ts, 4);
      if where.None? then None else Some(Delete(ts[2].literal, Some(where.value.0)))
  }

  function StatementAt(ts: seq<Token>): Option<Statement> {
    match TypeAt(ts, 0)
    case Key(CREATE) => CreateTableAt(ts)
    case Key(INSERT) => InsertAt(ts)
    case Key(SELECT) => SelectAt(ts)
    case Key(UPDATE) => UpdateAt(ts)
    case Key(DELETE) => DeleteAt(ts)
    case _ => None
  }

  function Parse(input: string): Option<Statement> {
    var ts := SqlLexer.Lex(input);
    if ts.Err? then None else StatementAt(ts.value)
  }

  // ---------------------------------------------------------------- the descent

  class Parser {
    const tokens: seq<Token>
    var pos: nat

    ghost predicate Valid()
      reads this
    {
      pos <= |tokens|
    }

    /** The method found what the production at the old position yields, and stands behind it. */
    ghost predicate Found<T>(r: Option<T>, spec: Option<(T, nat)>)
      reads this
    {
      && Valid()
      && match spec
         case None => r.None?
         case Some(found) => r == Some(found.0) && pos == found.1
    }

    constructor (tokens: seq<Token>)
      ensures Valid() && this.tokens == tokens && pos == 0
    {
      this.tokens := tokens;
      pos := 0;
    }

    method Check(tt: TokenType) returns (ok: bool)
      ensures ok <==> TypeAt(tokens, pos) == tt
    {
      ok := (if pos < |tokens| then tokens[pos].typ else EOF) == tt;
    }

    method Advance() returns (literal: string)
      requires Valid()
      modifies this
      ensures Valid() && literal == LiteralAt(tokens, old(pos))
      ensures pos == if old(pos) < |tokens| then old(pos) + 1 else old(pos)
    {
      literal := "";
      if pos < |tokens| {
        literal := tokens[pos].literal;
        pos := pos + 1;
      }
    }

    /** Consumes a token of the given type; fails on any other. */
    method Expect(tt: TokenType) returns (literal: Option<string>)
      requires Valid() && tt != EOF
      modifies this
      ensures Found(literal, if TypeAt(tokens, old(pos)) == tt
                             then Some((LiteralAt(tokens, old(pos)), old(pos) + 1)) else None)
    {
      var ok := Check(tt);
      var text := Advance();
      literal := if ok then Some(text) else None;
    }

    method Match(tt: TokenType) returns (ok: bool)
      requires Valid() && tt != EOF
      modifies this
      ensures Valid() && ok == (TypeAt(tokens, old(pos)) == tt)
      ensures pos == if ok then old(pos) + 1 else old(pos)
    {
      ok := Check(tt);
      if ok {
        var _ := Advance();
      }
    }

    method ParsePrimary() returns (r: Option<Expr>)
      requires Valid()
      modifies this
      ensures Found(r, PrimaryAt(tokens, old(pos)))
      decreases |tokens| - pos, 0
    {
      if pos >= |tokens| {
        return None;
      }
      var tok := tokens[pos];
      match tok.typ {
        case NUMBER =>
          pos := pos + 1;
          var n := ParseInt(tok.literal);
          if n.None? {
            return None;
          }
          return Some(Literal(IntValue(n.value)));
        case STRING =>
          pos := pos + 1;
          return Some(Literal(TextValue(tok.literal)));
        case IDENT =>
          pos := pos + 1;
          return Some(Column(tok.literal));
        case Key(TRUE) =>
          pos := pos + 1;
          return Some(Literal(BoolValue(true)));
        case Key(FALSE) =>
          pos := pos + 1;
          return Some(Literal(BoolValue(false)));
        case Key(NULL) =>
          pos := pos + 1;
          return Some(Literal(NullValue));
        case Sym(LPAREN) =>
          pos := pos + 1;
          var e := ParseExpr();
          if e.None? {
            return None;
          }
          var close := Expect(Sym(RPAREN));
          if close.None? {
            return None;
          }
          return e;
        case _ =>
          return None;
      }
    }

    method ParseCompare() returns (r: Option<Expr>)
      requires Valid()
      modifies this
      ensures Found(r, CompareAt(tokens, old(pos)))
      decreases |tokens| - pos, 1
    {
      var left := ParsePrimary();
      if left.None? {
        return None;
      }
      var op := ComparisonOf(TypeAt(tokens, pos));
      if op.Some? {
        var _ := Advance();
        var right := ParsePrimary();
        if right.None? {
          return None;
        }
        return Some(Binary(left.value, op.value, right.value));
      }
      return left;
    }

    method ParseExpr() returns (r: Option<Expr>)
      requires Valid()
      modifies this
      ensures Found(r, ExprAt(tokens, old(pos)))
      decreases |tokens| - pos, 2
    {
      var first := ParseCompare();
      if first.None? {
        return None;
      }
      var left := first.value;
      while ConnectiveOf(TypeAt(tokens, pos)).Some?
        invariant Valid() && pos > old(pos)
        invariant JoinedAt(tokens, left, pos) == ExprAt(tokens, old(pos))
        decreases |tokens| - pos
      {
        var op := ConnectiveOf(TypeAt(tokens, pos)).value;
        var _ := Advance();
        var right := ParseCompare();
        if right.None? {
          return None;
        }
        left := Binary(left, op, right.value);
      }
      return Some(left);
    }

    method ParseExprs() returns (r: Option<seq<Expr>>)
      requires Valid()
      modifies this
      ensures Found(r, ExprsAt(tokens, [], old(pos)))
    {
      var values: seq<Expr> := [];
      while true
        invariant Valid() && ExprsAt(tokens, values, pos) == ExprsAt(tokens, [], old(pos))
        decreases |tokens| - pos
      {
        var e := ParseExpr();
        if e.None? {
          return None;
        }
        values := values + [e.value];
        var more := Match(Sym(COMMA));
        if !more {
          break;
        }
      }
      return Some(values);
    }

    method ParsePrimaries() returns (r: Option<seq<Expr>>)
      requires Valid()
      modifies this
      ensures Found(r, PrimariesAt(tokens, [], old(pos)))
    {
      var columns: seq<Expr> := [];
      while true
        invariant Valid() && PrimariesAt(tokens, columns, pos) == PrimariesAt(tokens, [], old(pos))
        decreases |tokens| - pos
      {
        var e := ParsePrimary();
        if e.None? {
          return None;
        }
        columns := columns + [e.value];
        var more := Match(Sym(COMMA));
        if !more {
          break;
        }
      }
      return Some(columns);
    }

    method ParseNames() returns (r: Option<seq<string>>)
      requires Valid()
      modifies this
      ensures Found(r, NamesAt(tokens, [], old(pos)))
    {
      var names: seq<string> := [];
      while true
        invariant Valid() && NamesAt(tokens, names, pos) == NamesAt(tokens, [], old(pos))
        decreases |tokens| - pos
      {
        var name := Expect(IDENT);
        if name.None? {
          return None;
        }
        names := names + [name.value];
        var more := Match(Sym(COMMA));
        if !more {
          break;
        }
      }
      return Some(names);
    }

    method ParseAssignment() returns (r: Option<Assignment>)
      requires Valid()
      modifies this
      ensures Found(r, AssignmentAt(tokens, old(pos)))
    {
      var name := Expect(IDENT);
      if name.None? {
        return None;
      }
      var eq := Expect(Sym(EQ));
      if eq.None? {
        return None;
      }
      var e := ParseExpr();
      if e.None? {
        return None;
      }
      return Some(Assignment(name.value, e.value));
    }

    method ParseAssignments() returns (r: Option<seq<Assignment>>)
      requires Valid()
      modifies this
      ensures Found(r, AssignmentsAt(tokens, [], old(pos)))
    {
      var assignments: seq<Assignment> := [];
      while true
        invariant Valid() && AssignmentsAt(tokens, assignments, pos) == AssignmentsAt(tokens, [], old(pos))
        decreases |tokens| - pos
      {
        var a := ParseAssignment();
        if a.None? {
          return None;
        }
        assignments := assignments + [a.value];
        var more := Match(Sym(COMMA));
        if !more {
          break;
        }
      }
      return Some(assignments);
    }

    method ParseColumnDef() returns (r: Option<ColumnDef>)
      requires Valid()
      modifies this
      ensures Found(r, ColumnDefAt(tokens, old(pos)))
    {
      var name := Expect(IDENT);
      if name.None? {
        return None;
      }
      var typ := ColumnTypeOf(TypeAt(tokens, pos));
      var _ := Advance();
      if typ.None? {
        return None;
      }
      var primaryKey, notNull := false, false;
      while true
        invariant Valid()
        invariant ConstraintsAt(tokens, ColumnDef(name.value, typ.value, primaryKey, notNull), pos)
                  == ColumnDefAt(tokens, old(pos))
        decreases |tokens| - pos
      {
        if TypeAt(tokens, pos) == Key(PRIMARY) {
          var _ := Advance();
          var key := Expect(Key(KEY));
          if key.None? {
            return None;
          }
          primaryKey := true;
        } else if TypeAt(tokens, pos) == Key(NOT) {
          var _ := Advance();
          var null' := Expect(Key(NULL));
          if null'.None? {
            return None;
          }
          notNull := true;
        } else {
          break;
        }
      }
      return Some(ColumnDef(name.value, typ.value, primaryKey, notNull));
    }

    method ParseColumnDefs() returns (r: Option<seq<ColumnDef>>)
      requires Valid()
      modifies this
      ensures Found(r, ColumnDefsAt(tokens, [], old(pos)))
    {
      var defs: seq<ColumnDef> := [];
      while true
        invariant Valid() && ColumnDefsAt(tokens, defs, pos) == ColumnDefsAt(tokens, [], old(pos))
        decreases |tokens| - pos
      {
        var d := ParseColumnDef();
        if d.None? {
          return None;
        }
        defs := defs + [d.value];
        var more := Match(Sym(COMMA));
        if !more {
          break;
        }
      }
      return Some(defs);
    }

    method ParseCreateTable() returns (r: Option<Statement>)
      requires Valid() && pos == 0
      modifies this
      ensures r == CreateTableAt(tokens)
    {
      var create := Expect(Key(CREATE));
      if create.None? {
        return None;
      }
      var table := Expect(Key(TABLE));
      if table.None? {
        return None;
      }
      var name := Expect(IDENT);
      if name.None? {
        return None;
      }
      var open := Expect(Sym(LPAREN));
      if open.None? {
        return None;
      }
      var defs := ParseColumnDefs();
      if defs.None? {
        return None;
      }
      var close := Expect(Sym(RPAREN));
      if close.None? {
        return None;
      }
      var _ := Match(Sym(SEMICOLON));
      return Some(CreateTable(name.value, defs.value));
    }

    method ParseInsertColumns() returns (r: Option<seq<string>>)
      requires Valid()
      modifies this
      ensures Found(r, InsertColumnsAt(tokens, old(pos)))
    {
      if TypeAt(tokens, pos) != Sym(LPAREN) {
        return Some([]);
      }
      var _ := Advance();
      var names := ParseNames();
      if names.None? {
        return None;
      }
      var close := Expect(Sym(RPAREN));
      if close.None? {
        return None;
      }
      return names;
    }

    method ParseInsert() returns (r: Option<Statement>)
      requires Valid() && pos == 0
      modifies this
      ensures r == InsertAt(tokens)
    {
      var insert := Expect(Key(INSERT));
      if insert.None? {
        return None;
      }
      var into := Expect(Key(INTO));
      if into.None? {
        return None;
      }
      var name := Expect(IDENT);
      if name.None? {
        return None;
      }
      var cols := ParseInsertColumns();
      if cols.None? {
        return None;
      }
      var values' := Expect(Key(VALUES));
      if values'.None? {
        return None;
      }
      var open := Expect(Sym(LPAREN));
      if open.None? {
        return None;
      }
      var values := ParseExprs();
      if values.None? {
        return None;
      }
      var close := Expect(Sym(RPAREN));
      if close.None? {
        return None;
      }
      var _ := Match(Sym(SEMICOLON));
      return Some(Insert(name.value, cols.value, values.value));
    }

    /** `*` alone, or a list of primaries. */
    method ParseProjection() returns (columns: Option<seq<Expr>>)
      requires Valid()
      modifies this
      ensures Found(columns, ProjectionAt(tokens, old(pos)))
    {
      if TypeAt(tokens, pos) == Sym(STAR) {
        var _ := Advance();
        return Some([Star]);
      }
      columns := ParsePrimaries();
    }

    method ParseSelect() returns (r: Option<Statement>)
      requires Valid() && pos == 0
      modifies this
      ensures r == SelectAt(tokens)
    {
      var select := Expect(Key(SELECT));
      if select.None? {
        return None;
      }
      var columns := ParseProjection();
      if columns.None? {
        return None;
      }
      var from' := Expect(Key(FROM));
      if from'.None? {
        return None;
      }
      var name := Expect(IDENT);
      if name.None? {
        return None;
      }
      var filtered := Match(Key(WHERE));
      var where: Option<Expr> := None;
      if filtered {
        where := ParseExpr();
        if where.None? {
          return None;
        }
      }
      var _ := Match(Sym(SEMICOLON));
      return Some(Select(columns.value, name.value, where));
    }

    method ParseUpdate() returns (r: Option<Statement>)
      requires Valid() && pos == 0
      modifies this
      ensures r == UpdateAt(tokens)
    {
      var update := Expect(Key(UPDATE));
      if update.None? {
        return None;
      }
      var name := Expect(IDENT);
      if name.None? {
        return None;
      }
      var set' := Expect(Key(SET));
      if set'.None? {
        return None;
      }
      var assignments := ParseAssignments();
      if assignments.None? {
        return None;
      }
      var where' := Expect(Key(WHERE));
      if where'.None? {
        return None;
      }
      var where := ParseExpr();
      if where.None? {
        return None;
      }
      var _ := Match(Sym(SEMICOLON));
      return Some(Update(name.value, assignments.value, where));
    }

    method ParseDelete() returns (r: Option<Statement>)
      requires Valid() && pos == 0
      modifies this
      ensures r == DeleteAt(tokens)
    {
      var delete := Expect(Key(DELETE));
      if delete.None? {
        return None;
      }
      var from' := Expect(Key(FROM));
      if from'.None? {
        return None;
      }
      var name := Expect(IDENT);
      if name.None? {
        return None;
      }
      var where' := Expect(Key(WHERE));
      if where'.None? {
        return None;
      }
      var where := ParseExpr();
      if where.None? {
        return None;
      }
      var _ := Match(Sym(SEMICOLON));
      return Some(Delete(name.value, where));
    }

    method ParseStatement() returns (r: Option<Statement>)
      requires Valid() && pos == 0
      modifies this
      ensures r == StatementAt(tokens)
    {
      match TypeAt(tokens, pos) {
        case Key(CREATE) => r := ParseCreateTable();
        case Key(INSERT) => r := ParseInsert();
        case Key(SELECT) => r := ParseSelect();
        case Key(UPDATE) => r := ParseUpdate();
        case Key(DELETE) => r := ParseDelete();
        case _ => r := None;
      }
    }
  }

  method ParseText(input: string) returns (r: Option<Statement>)
    ensures r == Parse(input)
  {
    var lexer := new SqlLexer.Lexer(input);
    var tokens := lexer.Tokenize();
    if tokens.Err? {
      return None;
    }
    var parser := new Parser(tokens.value);
    r := parser.ParseStatement();
  }
}
