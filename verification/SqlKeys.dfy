/**
 Keys keep rows apart: the text of a key determines the literal among those of
 one column type, and a row key determines its table and its text.
 */
module SqlKeys {
  import opened SqlTokens
  import opened SqlAst
  import opened SqlCatalog
  import opened SqlAnalyzer
  import opened SqlPlanner
  import opened SqlExecutor
  import SqlLexerFacts
  import SqlPrinter
  import SqlRoundTrip

  /** The literals a column of this type may hold: those of the type, and in a number column also null. */
  predicate Admits(typ: ColumnType, v: Value) {
    match typ
    case TypeInt => v.IntValue? || v.NullValue?
    case TypeText => v.TextValue?
    case TypeBool => v.BoolValue?
  }

  /** The analyzer gives a literal exactly the type of the columns that may hold it. */
  lemma {:induction false} AdmitsExactly(typ: ColumnType, v: Value)
    ensures LiteralType(v) == typ <==> Admits(typ, v)
  {
  }

  predicate Slashless(s: string) {
    forall i :: 0 <= i < |s| ==> s[i] != '/'
  }

  lemma {:induction false} IdentifierIsSlashless(name: string)
    requires SqlLexerFacts.IsIdentifier(name)
    ensures Slashless(name)
  {
  }

  // ---------------------------------------------------------------- literals

  lemma {:induction false} DecimalInjective(m: nat, n: nat)
    requires SqlPrinter.Decimal(m) == SqlPrinter.Decimal(n)
    ensures m == n
  {
    SqlRoundTrip.DecimalReads(m);
    SqlRoundTrip.DecimalReads(n);
  }

  /** A number's text starts with a digit or a minus sign, which tells its sign. */
  lemma {:induction false} FormatIntStarts(n: int)
    ensures FormatInt(n) != ""
    ensures n < 0 ==> FormatInt(n)[0] == '-' && FormatInt(n)[1..] == SqlPrinter.Decimal(-n)
    ensures n >= 0 ==> IsDigit(FormatInt(n)[0])
  {
    SqlRoundTrip.DecimalReads(if n < 0 then -n else n);
  }

  lemma {:induction false} FormatIntInjective(m: int, n: int)
    requires FormatInt(m) == FormatInt(n)
    ensures m == n
  {
    FormatIntStarts(m);
    FormatIntStarts(n);
    if m < 0 {
      DecimalInjective(-m, -n);
    } else {
      DecimalInjective(m, n);
    }
  }

  /** Two literals of one column type with the same key text are the same. */
  lemma {:induction false} KeyTextInjective(typ: ColumnType, v: Value, w: Value)
    requires Admits(typ, v) && Admits(typ, w) && KeyText(v) == KeyText(w)
    ensures v == w
  {
    if v.IntValue? && w.IntValue? {
      FormatIntInjective(v.n, w.n);
    } else if v.IntValue? {
      FormatIntStarts(v.n);
    } else if w.IntValue? {
      FormatIntStarts(w.n);
    } else if v.BoolValue? {
      assert |KeyText(BoolValue(true))| == 4 && |KeyText(BoolValue(false))| == 5;
    }
  }

  /** Across column types they need not be: the key text does not carry the type. */
  lemma {:induction false} KeyTextLosesType()
    ensures KeyText(BoolValue(true)) == KeyText(TextValue("true")) && BoolValue(true) != TextValue("true")
    ensures KeyText(NullValue) == KeyText(TextValue("null"))
    ensures KeyText(IntValue(7)) == KeyText(TextValue("7"))
  {
  }

  // ---------------------------------------------------------------- row keys

  /** The slash of a row key stands right behind the table name. */
  lemma {:induction false} SlashPosition(a: string, p: string, b: string, q: string)
    requires Slashless(a) && Slashless(b) && |a| < |b|
    ensures RowKey(a, p) != RowKey(b, q)
  {
    assert RowKey(a, p)[|a|] == '/';
    assert RowKey(b, q)[|a|] == b[|a|];
  }

  lemma {:induction false} RowKeyInjective(a: string, p: string, b: string, q: string)
    requires Slashless(a) && Slashless(b) && RowKey(a, p) == RowKey(b, q)
    ensures a == b && p == q
  {
    if |a| < |b| {
      SlashPosition(a, p, b, q);
    } else if |b| < |a| {
      SlashPosition(b, q, a, p);
    } else {
      assert RowKey(a, p)[..|a|] == a && RowKey(b, q)[..|b|] == b;
      assert RowKey(a, p)[|a| + 1..] == p && RowKey(b, q)[|b| + 1..] == q;
    }
  }

  /** The scan prefix of a table covers exactly the rows of that table. */
  lemma {:induction false} PrefixExactly(a: string, b: string, q: string)
    requires Slashless(a) && Slashless(b)
    ensures HasPrefix(RowKey(b, q), a + "/") <==> a == b
  {
    var k := RowKey(b, q);
    if a == b {
      assert k[..|a + "/"|] == a + "/";
    }
    if HasPrefix(k, a + "/") {
      var rest := k[|a| + 1..];
      assert k == k[..|a| + 1] + rest;
      RowKeyInjective(a, rest, b, q);
    }
  }

  /** The key of the row of a table with a given primary key. */
  function KeyFor(table: string, v: Value): string {
    RowKey(table, KeyText(v))
  }

  lemma {:induction false} KeyForInjective(a: string, v: Value, b: string, w: Value)
    requires Slashless(a) && Slashless(b) && KeyFor(a, v) == KeyFor(b, w)
    ensures a == b && forall typ :: Admits(typ, v) && Admits(typ, w) ==> v == w
  {
    RowKeyInjective(a, KeyText(v), b, KeyText(w));
    forall typ | Admits(typ, v) && Admits(typ, w) ensures v == w {
      KeyTextInjective(typ, v, w);
    }
  }
}
