/**
 What the statements keep of every row, and what they do not: its primary key,
 its numbers and its `NOT NULL` columns. For each rule, the exact condition on a
 statement and on a run of texts, and a statement that breaks it.
 */
module SqlIntegrity {
  import opened Common
  import opened SqlAst
  import opened SqlCatalog
  import opened SqlJson
  import opened SqlKeys
  import opened SqlRelational
  import opened SqlSimulation
  import opened SqlRuns
  import SqlParser

  /**
   What may be asked of a row: that it has its primary key at all, that the key
   is the one it is stored under, that it is read back as it was written, that
   its `NOT NULL` columns are there and not null.
   */
  datatype Rule = HasKey | HoldsKey | ReadsBack | NotNull

  predicate RowObeys(rule: Rule, def: TableDef, v: Value, row: Row) {
    match rule
    case HasKey => def.primaryKey in row
    case HoldsKey => def.primaryKey in row && row[def.primaryKey] == v
    case ReadsBack => Decode(row) == row
    case NotNull =>
      forall i :: 0 <= i < |def.columns| && def.columns[i].notNull ==>
        def.columns[i].name in row && row[def.columns[i].name] != NullValue
  }

  predicate Obeys(rule: Rule, db: Database) {
    forall t, v | t in db && v in db[t].rows :: RowObeys(rule, db[t].def, v, db[t].rows[v])
  }

  // ---------------------------------------------------------------- the row a statement writes

  datatype Written = Written(key: Value, row: Row)

  /** The row a statement puts into its table, and the key it puts it under. */
  function RowWritten(s: Statement, db: Database): Option<Written> {
    if s.table !in db then None
    else
      var def, rows := db[s.table].def, db[s.table].rows;
      match s
      case Insert(_, names, values) =>
        if InsertOk(def, names, values)
        then Some(Written(InsertedKey(def, names, values), InsertedRow(Targets(def, names), values))) else None
      case Update(_, xs, where) =>
        if where.Some? && WhereKey(def, where.value).Some? && WhereKey(def, where.value).value in rows && AllLiteral(xs)
        then Some(Written(WhereKey(def, where.value).value, UpdatedRow(rows[WhereKey(def, where.value).value], xs)))
        else None
      case _ => None
  }

  lemma {:induction false} ObeysPut(rule: Rule, db: Database, t: string, v: Value, row: Row)
    requires Obeys(rule, db) && t in db
    ensures Obeys(rule, WithRows(db, t, db[t].rows[v := row])) <==> RowObeys(rule, db[t].def, v, row)
  {
    var db' := WithRows(db, t, db[t].rows[v := row]);
    assert db'[t].rows[v] == row && db'[t].def == db[t].def;
    if RowObeys(rule, db[t].def, v, row) {
      forall u, w | u in db' && w in db'[u].rows ensures RowObeys(rule, db'[u].def, w, db'[u].rows[w]) {
        if u != t || w != v {
          assert w in db[u].rows;
        }
      }
    }
  }

  lemma {:induction false} ObeysRemove(rule: Rule, db: Database, t: string, v: Value)
    requires Obeys(rule, db) && t in db
    ensures Obeys(rule, WithRows(db, t, db[t].rows - {v}))
  {
    var db' := WithRows(db, t, db[t].rows - {v});
    forall u, w | u in db' && w in db'[u].rows ensures RowObeys(rule, db'[u].def, w, db'[u].rows[w]) {
      assert w in db[u].rows;
    }
  }

  lemma {:induction false} ObeysCreate(rule: Rule, s: Statement, db: Database)
    requires s.CreateTable? && Obeys(rule, db) && Meaning(s, db).Some?
    ensures Obeys(rule, Meaning(s, db).value.db)
  {
    var db' := Meaning(s, db).value.db;
    forall u, w | u in db' && w in db'[u].rows ensures RowObeys(rule, db'[u].def, w, db'[u].rows[w]) {
      assert w in db[u].rows;
    }
  }

  ghost predicate WritesWell(rule: Rule, s: Statement, db: Database) {
    RowWritten(s, db).Some? ==>
      RowObeys(rule, db[s.table].def, RowWritten(s, db).value.key, RowWritten(s, db).value.row)
  }

  /** The database after the row is put, or the same one if there is none. */
  function AfterWrite(s: Statement, db: Database): Database
    requires s.table in db
  {
    var w := RowWritten(s, db);
    if w.None? then db else WithRows(db, s.table, db[s.table].rows[w.value.key := w.value.row])
  }

  lemma {:induction false} InsertWrites(s: Statement, db: Database)
    requires s.Insert? && s.table in db && Meaning(s, db).Some?
    ensures Meaning(s, db).value.db == AfterWrite(s, db)
  {
    InsertMeaning(s, db);
  }

  lemma {:induction false} UpdateWrites(s: Statement, db: Database)
    requires s.Update? && s.table in db && Meaning(s, db).Some?
    ensures Meaning(s, db).value.db == AfterWrite(s, db)
  {
    UpdateMeaning(s, db);
  }

  lemma {:induction false} WriteObeys(rule: Rule, s: Statement, db: Database)
    requires s.table in db && Obeys(rule, db)
    ensures Obeys(rule, AfterWrite(s, db)) <==> WritesWell(rule, s, db)
  {
    var w := RowWritten(s, db);
    if w.Some? {
      ObeysPut(rule, db, s.table, w.value.key, w.value.row);
    }
  }

  /** Only the row that is written decides. */
  lemma {:induction false} StepObeys(rule: Rule, s: Statement, db: Database)
    requires Obeys(rule, db) && Meaning(s, db).Some?
    ensures Obeys(rule, Meaning(s, db).value.db) <==> WritesWell(rule, s, db)
  {
    match s
    case Insert(_, _, _) =>
      InsertWrites(s, db);
      WriteObeys(rule, s, db);
    case Update(_, _, _) =>
      UpdateWrites(s, db);
      WriteObeys(rule, s, db);
    case Delete(_, where) =>
      DeleteMeaning(s, db);
      ObeysRemove(rule, db, s.table, WhereKey(db[s.table].def, where.value).value);
    case Select(_, _, _) => SelectMeaning(s, db);
    case CreateTable(_, _) => ObeysCreate(rule, s, db);
  }

  // ---------------------------------------------------------------- conditions on the statement

  predicate ExactLiteral(e: Expr) {
    e.Literal? ==> Exact(e.value)
  }

  /** What an `INSERT` has to say: its key once or twice alike, numbers that survive, all `NOT NULL` columns. */
  predicate InsertKeeps(rule: Rule, def: TableDef, targets: seq<string>, values: seq<Expr>)
    requires |values| == |targets| && def.primaryKey in targets
  {
    match rule
    case HasKey => true
    case HoldsKey => values[FirstAt(targets, def.primaryKey)] == values[LastAt(targets, def.primaryKey)]
    case ReadsBack => forall c | c in targets :: ExactLiteral(values[LastAt(targets, c)])
    case NotNull =>
      forall i :: 0 <= i < |def.columns| && def.columns[i].notNull ==>
        def.columns[i].name in targets && values[LastAt(targets, def.columns[i].name)] != Literal(NullValue)
  }

  /** What an `UPDATE` of the row of `v` has to say: nothing else for the key, numbers that survive, no null. */
  predicate UpdateKeeps(rule: Rule, def: TableDef, v: Value, xs: seq<Assignment>) {
    var names := AssignedNames(xs);
    match rule
    case HasKey => true
    case HoldsKey => def.primaryKey in names ==> xs[LastAt(names, def.primaryKey)].value == Literal(v)
    case ReadsBack => forall c | c in names :: ExactLiteral(xs[LastAt(names, c)].value)
    case NotNull =>
      forall i :: 0 <= i < |def.columns| && def.columns[i].notNull && def.columns[i].name in names ==>
        xs[LastAt(names, def.columns[i].name)].value != Literal(NullValue)
  }

  /** What a statement has to say to keep a rule: only `INSERT`, and `UPDATE` of a row that is there, can break one. */
  predicate Keeps(rule: Rule, s: Statement, db: Database) {
    s.table in db ==>
      var def, rows := db[s.table].def, db[s.table].rows;
      match s
      case Insert(_, names, values) =>
        var targets := Targets(def, names);
        |values| == |targets| && def.primaryKey in targets ==> InsertKeeps(rule, def, targets, values)
      case Update(_, xs, where) =>
        where.Some? && WhereKey(def, where.value).Some? && WhereKey(def, where.value).value in rows ==>
          UpdateKeeps(rule, def, WhereKey(def, where.value).value, xs)
      case _ => true
  }

  lemma {:induction false} InsertedKeeps(rule: Rule, def: TableDef, names: seq<string>, values: seq<Expr>)
    requires InsertOk(def, names, values)
    ensures var targets := Targets(def, names);
            RowObeys(rule, def, InsertedKey(def, names, values), InsertedRow(targets, values))
            <==> InsertKeeps(rule, def, targets, values)
  {
    var targets := Targets(def, names);
    var row := InsertedRow(targets, values);
    assert row.Keys == set c | c in targets;
    if rule.ReadsBack? {
      DecodeExactly(row);
      assert forall c | c in targets :: row[c] == values[LastAt(targets, c)].value;
    }
  }

  lemma {:induction false} UpdatedKeeps(rule: Rule, def: TableDef, v: Value, row: Row, xs: seq<Assignment>)
    requires AllLiteral(xs) && RowObeys(rule, def, v, row)
    ensures RowObeys(rule, def, v, UpdatedRow(row, xs)) <==> UpdateKeeps(rule, def, v, xs)
  {
    var names, row' := AssignedNames(xs), UpdatedRow(row, xs);
    if rule.ReadsBack? {
      DecodeExactly(row);
      DecodeExactly(row');
      assert forall c | c in names :: c in row' && row'[c] == xs[LastAt(names, c)].value.value;
    }
  }

  /** A statement that succeeds keeps a rule for all rows exactly when it says what the rule asks. */
  lemma {:induction false} IntegrityExactly(rule: Rule, s: Statement, db: Database)
    requires Obeys(rule, db) && Meaning(s, db).Some?
    ensures Obeys(rule, Meaning(s, db).value.db) <==> Keeps(rule, s, db)
  {
    StepObeys(rule, s, db);
    if s.table in db {
      var def, rows := db[s.table].def, db[s.table].rows;
      if s.Insert? {
        InsertMeaning(s, db);
        InsertedKeeps(rule, def, s.columns, s.values);
      } else if s.Update? {
        UpdateMeaning(s, db);
        var v := WhereKey(def, s.where.value).value;
        if v in rows {
          UpdatedKeeps(rule, def, v, rows[v], s.assignments);
        }
      }
    }
  }

  // ---------------------------------------------------------------- runs

  /** A text that errs changes nothing. */
  ghost predicate TextKeeps(rule: Rule, text: string, db: Database) {
    TextMeaning(text, db).Some? ==> Keeps(rule, SqlParser.Parse(text).value, db)
  }

  /** Each of the first `n` texts keeps the rule where it is run. */
  ghost predicate TextsKeep(rule: Rule, texts: seq<string>, n: nat)
    requires n <= |texts|
  {
    n > 0 ==> TextsKeep(rule, texts, n - 1) && TextKeeps(rule, texts[n - 1], DbAfter(texts, n - 1))
  }

  /** The rule holds of every row after each of the first `n` texts, and before them. */
  ghost predicate ObeyedUpTo(rule: Rule, texts: seq<string>, n: nat)
    requires n <= |texts|
  {
    Obeys(rule, DbAfter(texts, n)) && (n > 0 ==> ObeyedUpTo(rule, texts, n - 1))
  }

  lemma {:induction false} TextObeys(rule: Rule, text: string, db: Database)
    requires Obeys(rule, db)
    ensures Obeys(rule, AfterText(text, db)) <==> TextKeeps(rule, text, db)
  {
    if TextMeaning(text, db).Some? {
      IntegrityExactly(rule, SqlParser.Parse(text).value, db);
    }
  }

  /** All through the run of any texts every row obeys a rule, exactly when every text keeps it. */
  lemma {:induction false} RunObeysExactly(rule: Rule, texts: seq<string>, n: nat)
    requires n <= |texts|
    ensures ObeyedUpTo(rule, texts, n) <==> TextsKeep(rule, texts, n)
  {
    if n == 0 {
      StartObeys(rule, texts);
    } else {
      RunObeysExactly(rule, texts, n - 1);
      if ObeyedUpTo(rule, texts, n - 1) {
        StepOfTexts(rule, texts, n);
      }
    }
  }

  lemma {:induction false} StartObeys(rule: Rule, texts: seq<string>)
    ensures Obeys(rule, DbAfter(texts, 0))
  {
    assert DbAfter(texts, 0) == map[];
  }

  lemma {:induction false} StepOfTexts(rule: Rule, texts: seq<string>, n: nat)
    requires 0 < n <= |texts| && Obeys(rule, DbAfter(texts, n - 1))
    ensures Obeys(rule, DbAfter(texts, n)) <==> TextKeeps(rule, texts[n - 1], DbAfter(texts, n - 1))
  {
    TextObeys(rule, texts[n - 1], DbAfter(texts, n - 1));
  }

  lemma {:induction false} KeysAreKept(texts: seq<string>, n: nat)
    requires n <= |texts|
    ensures TextsKeep(HasKey, texts, n)
  {
    if n > 0 {
      KeysAreKept(texts, n - 1);
    }
  }

  /** Whatever is run, every row has a value for its primary key. */
  lemma {:induction false} RowsHaveKeys(texts: seq<string>, n: nat)
    requires n <= |texts|
    ensures Obeys(HasKey, DbAfter(texts, n))
  {
    KeysAreKept(texts, n);
    RunObeysExactly(HasKey, texts, n);
  }

  // ---------------------------------------------------------------- statements that break a rule

  /** `CREATE TABLE t (id INT PRIMARY KEY, n INT NOT NULL)`. */
  const TABLE_T := TableDef("t", [ColumnDef("id", TypeInt, true, false), ColumnDef("n", TypeInt, false, true)], "id")

  const DB_T: Database := map["t" := Table(TABLE_T, map[])]

  /** The same with the row `(1, 1)`. */
  const DB_ONE: Database :=
    map["t" := Table(TABLE_T, map[IntValue(1) := map["id" := IntValue(1), "n" := IntValue(1)]])]

  function Number(n: int): Expr {
    Literal(IntValue(n))
  }

  lemma {:induction false} InsertIsAccepted(names: seq<string>, values: seq<Expr>)
    requires |names| == |values| && (names == ["id"] || names == ["id", "n"])
    requires forall i :: 0 <= i < |values| ==> values[i].Literal? && Admits(TypeInt, values[i].value)
    ensures Meaning(Insert("t", names, values), DB_T).Some?
  {
    assert FindColumn(TABLE_T, "id") == Some(TABLE_T.columns[0]);
    assert FindColumn(TABLE_T, "n") == Some(TABLE_T.columns[1]);
    assert InsertOk(TABLE_T, names, values);
  }

  /** `INSERT INTO t (id, n) VALUES (1, NULL)` and `INSERT INTO t (id) VALUES (1)` both succeed. */
  lemma {:induction false} NullIsInserted()
    ensures Obeys(NotNull, DB_T)
    ensures var s := Insert("t", ["id", "n"], [Number(1), Literal(NullValue)]);
            Meaning(s, DB_T).Some? && !Obeys(NotNull, Meaning(s, DB_T).value.db)
    ensures var s := Insert("t", ["id"], [Number(1)]);
            Meaning(s, DB_T).Some? && !Obeys(NotNull, Meaning(s, DB_T).value.db)
  {
    var given := Insert("t", ["id", "n"], [Number(1), Literal(NullValue)]);
    InsertIsAccepted(given.columns, given.values);
    assert given.values[LastAt(given.columns, TABLE_T.columns[1].name)] == Literal(NullValue);
    IntegrityExactly(NotNull, given, DB_T);
    var omitted := Insert("t", ["id"], [Number(1)]);
    InsertIsAccepted(omitted.columns, omitted.values);
    assert TABLE_T.columns[1].notNull && TABLE_T.columns[1].name !in omitted.columns;
    IntegrityExactly(NotNull, omitted, DB_T);
  }

  /** `INSERT INTO t (id, n) VALUES (1, 9007199254740993)` stores a number that is read back one lower. */
  lemma {:induction false} BigNumberIsRounded()
    ensures Obeys(ReadsBack, DB_T)
    ensures var s := Insert("t", ["id", "n"], [Number(1), Number(EXACT + 1)]);
            Meaning(s, DB_T).Some? && !Obeys(ReadsBack, Meaning(s, DB_T).value.db)
  {
    var s := Insert("t", ["id", "n"], [Number(1), Number(EXACT + 1)]);
    InsertIsAccepted(s.columns, s.values);
    SmallSurvives(1);
    assert !ExactLiteral(s.values[LastAt(s.columns, "n")]);
    IntegrityExactly(ReadsBack, s, DB_T);
  }

  /** `UPDATE t SET id = 2 WHERE id = 1` leaves the row under its old key. */
  lemma {:induction false} KeyIsUpdated()
    ensures Obeys(HoldsKey, DB_ONE)
    ensures var s := Update("t", [Assignment("id", Number(2))], Some(Binary(Column("id"), OpEq, Number(1))));
            Meaning(s, DB_ONE).Some? && !Obeys(HoldsKey, Meaning(s, DB_ONE).value.db)
  {
    var s := Update("t", [Assignment("id", Number(2))], Some(Binary(Column("id"), OpEq, Number(1))));
    assert FindColumn(TABLE_T, "id") == Some(TABLE_T.columns[0]);
    assert AssignmentOk(TABLE_T, s.assignments[0]);
    assert WhereKey(TABLE_T, s.where.value) == Some(IntValue(1));
    assert Meaning(s, DB_ONE).Some?;
    assert AssignedNames(s.assignments) == ["id"];
    assert s.assignments[LastAt(AssignedNames(s.assignments), "id")].value == Number(2);
    IntegrityExactly(HoldsKey, s, DB_ONE);
  }
}
