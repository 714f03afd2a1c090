/**
 Two statement texts, `CREATE TABLE t (id INT PRIMARY KEY)` and an `INSERT`, for
 any two names: the keys and numbers for which the row that results is stored
 under the key it holds and is told apart by it.
 */
module SqlFailingRuns {
  import opened Common
  import opened SqlAst
  import opened SqlCatalog
  import opened SqlExecutor
  import opened SqlJson
  import opened SqlLexerFacts
  import opened SqlRelational
  import opened SqlRuns
  import opened SqlIntegrity
  import opened SqlLookups
  import opened SqlPrinter
  import opened SqlParsed
  import SqlParser

  function DefFor(t: string, id: string): TableDef {
    TableDef(t, [ColumnDef(id, TypeInt, true, false)], id)
  }

  function CreateFor(t: string, id: string): Statement {
    CreateTable(t, DefFor(t, id).columns)
  }

  /** Two texts that say to create the table and then `insert`. */
  predicate Says(texts: seq<string>, t: string, id: string, insert: Statement) {
    && |texts| == 2
    && SqlParser.Parse(texts[0]) == Some(CreateFor(t, id)) && SqlParser.Parse(texts[1]) == Some(insert)
  }

  /** For any two identifiers and any numbers the parser takes there are such texts. */
  lemma {:induction false} CanBeSaid(t: string, id: string, insert: Statement)
    requires IsIdentifier(t) && IsIdentifier(id) && WellFormed(insert)
    ensures WellFormed(CreateFor(t, id)) && Says([Print(CreateFor(t, id)), Print(insert)], t, id, insert)
  {
    PrintParses(CreateFor(t, id));
    PrintParses(insert);
  }

  function TableWith(t: string, id: string, rows: map<Value, Row>): Database {
    map[t := Table(DefFor(t, id), rows)]
  }

  lemma {:induction false} Creates(t: string, id: string)
    ensures Meaning(CreateFor(t, id), map[]).Some?
    ensures Meaning(CreateFor(t, id), map[]).value.db == TableWith(t, id, map[])
  {
    assert Marked(DefFor(t, id).columns) == {0};
  }

  /** The database after both texts is what the insert makes of the new table. */
  lemma {:induction false} AfterBoth(texts: seq<string>, t: string, id: string, insert: Statement)
    requires Says(texts, t, id, insert) && Meaning(insert, TableWith(t, id, map[])).Some?
    ensures DbAfter(texts, 2) == Meaning(insert, TableWith(t, id, map[])).value.db
  {
    Creates(t, id);
    assert DbAfter(texts, 1) == AfterText(texts[0], DbAfter(texts, 0)) == TableWith(t, id, map[]);
    assert DbAfter(texts, 2) == AfterText(texts[1], DbAfter(texts, 1));
  }

  // ---------------------------------------------------------------- a key named twice

  lemma {:induction false} InsertsTwice(t: string, id: string, a: int, b: int)
    ensures var m := Meaning(Insert(t, [id, id], [Number(a), Number(b)]), TableWith(t, id, map[]));
            m.Some? && m.value.db == TableWith(t, id, map[IntValue(a) := map[id := IntValue(b)]])
  {
    var def, names, values := DefFor(t, id), [id, id], [Number(a), Number(b)];
    assert FindColumn(def, id) == Some(def.columns[0]);
    assert InsertOk(def, names, values);
    assert FirstAt(names, id) == 0 && LastAt(names, id) == 1;
    assert InsertedRow(names, values) == map[id := IntValue(b)];
  }

  /**
   `INSERT INTO t (id, id) VALUES (a, b)` is accepted; its row is stored under `a`
   and holds `b`, so it holds its own key exactly when the two are the same.
   */
  lemma {:induction false} KeyNamedTwiceExactly(texts: seq<string>, t: string, id: string, a: int, b: int)
    requires Says(texts, t, id, Insert(t, [id, id], [Number(a), Number(b)]))
    ensures DbAfter(texts, 2) == TableWith(t, id, map[IntValue(a) := map[id := IntValue(b)]])
    ensures Obeys(HoldsKey, DbAfter(texts, 2)) <==> a == b
  {
    InsertsTwice(t, id, a, b);
    AfterBoth(texts, t, id, Insert(t, [id, id], [Number(a), Number(b)]));
    var db := TableWith(t, id, map[IntValue(a) := map[id := IntValue(b)]]);
    if a != b {
      assert !RowObeys(HoldsKey, db[t].def, IntValue(a), db[t].rows[IntValue(a)]);
    }
  }

  // ---------------------------------------------------------------- a key that is rounded

  lemma {:induction false} InsertsKey(t: string, id: string, n: int)
    ensures var m := Meaning(Insert(t, [id], [Number(n)]), TableWith(t, id, map[]));
            m.Some? && m.value.db == TableWith(t, id, map[IntValue(n) := map[id := IntValue(n)]])
  {
    var def, names, values := DefFor(t, id), [id], [Number(n)];
    assert FindColumn(def, id) == Some(def.columns[0]);
    assert InsertOk(def, names, values);
    assert FirstAt(names, id) == 0 && LastAt(names, id) == 0;
    assert InsertedRow(names, values) == map[id := IntValue(n)];
  }

  lemma {:induction false} OneKeyReadsApart(t: string, id: string, n: int)
    ensures var table := Table(DefFor(t, id), map[IntValue(n) := map[id := IntValue(n)]]);
            IsKeyOf(table.def, IntValue(n)) && (ReadsApart(table, IntValue(n)) <==> Survives(n))
  {
    var table := Table(DefFor(t, id), map[IntValue(n) := map[id := IntValue(n)]]);
    assert FindColumn(table.def, id) == Some(table.def.columns[0]);
    AsReadExactly(IntValue(n));
    assert ReadsApart(table, IntValue(n)) <==> ShowsKey(table, IntValue(n), IntValue(n));
  }

  /**
   After `INSERT INTO t (id) VALUES (n)`, a lookup of `n` answers like the filtered
   scan exactly when `n` is read back as it was written; 9007199254740993 is not.
   */
  lemma {:induction false} RoundedKeyExactly(
    texts: seq<string>, t: string, id: string, n: int, states: seq<State>, results: seq<Option<ResultSet>>,
    scan: seq<Entry>)
    requires Says(texts, t, id, Insert(t, [id], [Number(n)]))
    requires IsRun(texts, states, results) && IsScan(states[2].entries, t + "/", scan)
    ensures LookupIsFilter(states[2], DefFor(t, id), t, IntValue(n), scan) <==> Survives(n)
    ensures !Survives(EXACT + 1)
  {
    InsertsKey(t, id, n);
    AfterBoth(texts, t, id, Insert(t, [id], [Number(n)]));
    OneKeyReadsApart(t, id, n);
    PointLookupInRuns(texts, states, results, 2, DbAfter(texts, 2), t, IntValue(n), scan);
    SmallSurvives(0);
  }
}
