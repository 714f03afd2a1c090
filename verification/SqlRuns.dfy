/**
 Runs of statement texts: the store and the catalog follow the relational
 database through every run.
 */
module SqlRuns {
  import opened Common
  import opened SqlAst
  import opened SqlExecutor
  import opened SqlKeys
  import opened SqlRelational
  import opened SqlRefinement
  import opened SqlSimulation
  import SqlCatalog
  import SqlParser
  import SqlTextRoundTrip

  // ---------------------------------------------------------------- runs

  ghost function TextMeaning(text: string, db: Database): Option<Effect> {
    var s := SqlParser.Parse(text);
    if s.None? then None else Meaning(s.value, db)
  }

  /** The table a text is about. */
  function TableOf(text: string): string {
    var s := SqlParser.Parse(text);
    if s.None? then "" else s.value.table
  }

  ghost predicate TextStep(text: string, st: State, scan: seq<Entry>, after: State, r: Option<ResultSet>) {
    match SqlParser.Parse(text)
    case None => after == st && r.None?
    case Some(s) => ScanAnswers(s, st, scan) && Step(s, st, scan) == (after, r)
  }

  ghost predicate SomeStep(text: string, st: State, after: State, r: Option<ResultSet>) {
    exists scan :: TextStep(text, st, scan, after, r)
  }

  /** The run: states and results, one text after the other, each scan answered in some order. */
  ghost predicate IsRun(texts: seq<string>, states: seq<State>, results: seq<Option<ResultSet>>) {
    && |states| == |texts| + 1 && |results| == |texts|
    && states[0] == State(map[], map[])
    && forall i :: 0 <= i < |texts| ==> StepAt(texts, states, results, i)
  }

  ghost predicate StepAt(texts: seq<string>, states: seq<State>, results: seq<Option<ResultSet>>, i: nat)
    requires i < |texts| && |states| == |texts| + 1 && |results| == |texts|
  {
    SomeStep(texts[i], states[i], states[i + 1], results[i])
  }

  ghost function AfterText(text: string, db: Database): Database {
    var m := TextMeaning(text, db);
    if m.None? then db else m.value.db
  }

  /** The relational database after the first `n` texts. */
  ghost function DbAfter(texts: seq<string>, n: nat): Database
    requires n <= |texts|
  {
    if n == 0 then map[] else AfterText(texts[n - 1], DbAfter(texts, n - 1))
  }

  lemma {:induction false} TextRefines(
    text: string, st: State, db: Database, scan: seq<Entry>, after: State, r: Option<ResultSet>)
    requires Sim(st, db) && TextStep(text, st, scan, after, r)
    ensures Agrees(TextMeaning(text, db), st, RowsOf(db, TableOf(text)), after, r)
  {
    var s := SqlParser.Parse(text);
    if s.Some? {
      SqlTextRoundTrip.ParsedTableIsIdentifier(text, s.value);
      IdentifierIsSlashless(s.value.table);
      StatementRefines(s.value, st, db, scan);
    }
  }

  lemma {:induction false} AgreesKeepsSim(text: string, st: State, db: Database, after: State, r: Option<ResultSet>)
    requires Sim(st, db) && Agrees(TextMeaning(text, db), st, RowsOf(db, TableOf(text)), after, r)
    ensures Sim(after, AfterText(text, db))
  {
  }

  lemma {:induction false} StepAgrees(text: string, st: State, db: Database, after: State, r: Option<ResultSet>)
    requires Sim(st, db) && SomeStep(text, st, after, r)
    ensures Agrees(TextMeaning(text, db), st, RowsOf(db, TableOf(text)), after, r)
  {
    var scan :| TextStep(text, st, scan, after, r);
    TextRefines(text, st, db, scan, after, r);
  }

  lemma {:induction false} StepFollows(text: string, st: State, db: Database, after: State, r: Option<ResultSet>)
    requires Sim(st, db) && SomeStep(text, st, after, r)
    ensures Sim(after, AfterText(text, db))
  {
    StepAgrees(text, st, db, after, r);
    AgreesKeepsSim(text, st, db, after, r);
  }

  lemma {:induction false} EmptySim()
    ensures Sim(State(map[], map[]), map[])
  {
  }

  /** The store and the catalog hold the relational database after `n` texts. */
  ghost predicate FollowsAt(texts: seq<string>, states: seq<State>, n: nat)
    requires n <= |texts| && n < |states|
  {
    Sim(states[n], DbAfter(texts, n))
  }

  lemma {:induction false} StartFollows(texts: seq<string>, states: seq<State>)
    requires states != [] && states[0] == State(map[], map[])
    ensures FollowsAt(texts, states, 0)
  {
    EmptySim();
  }

  lemma {:induction false} RunSteps(texts: seq<string>, states: seq<State>, results: seq<Option<ResultSet>>, n: nat)
    requires IsRun(texts, states, results) && n < |texts|
    ensures SomeStep(texts[n], states[n], states[n + 1], results[n])
  {
    assert StepAt(texts, states, results, n);
  }

  lemma {:induction false} StepOn(
    texts: seq<string>, states: seq<State>, n: nat, r: Option<ResultSet>)
    requires n < |texts| && n + 1 < |states| && FollowsAt(texts, states, n)
    requires SomeStep(texts[n], states[n], states[n + 1], r)
    ensures FollowsAt(texts, states, n + 1)
  {
    StepFollows(texts[n], states[n], DbAfter(texts, n), states[n + 1], r);
  }

  lemma {:induction false} RunOn(texts: seq<string>, states: seq<State>, results: seq<Option<ResultSet>>, n: nat)
    requires IsRun(texts, states, results) && n < |texts| && FollowsAt(texts, states, n)
    ensures FollowsAt(texts, states, n + 1)
  {
    RunSteps(texts, states, results, n);
    StepOn(texts, states, n, results[n]);
  }

  /** After any texts, in any run, the store and the catalog hold exactly the relational database. */
  lemma {:induction false} RunFollows(texts: seq<string>, states: seq<State>, results: seq<Option<ResultSet>>, n: nat)
    requires IsRun(texts, states, results) && n <= |texts|
    ensures FollowsAt(texts, states, n)
  {
    if n == 0 {
      StartFollows(texts, states);
    } else {
      RunFollows(texts, states, results, n - 1);
      RunOn(texts, states, results, n - 1);
    }
  }

  /** Every text of a run errs exactly when its meaning does, changing nothing, and else answers as its meaning says. */
  lemma {:induction false} RunRefines(texts: seq<string>, states: seq<State>, results: seq<Option<ResultSet>>, n: nat)
    requires IsRun(texts, states, results) && n < |texts|
    ensures var db := DbAfter(texts, n);
            Agrees(TextMeaning(texts[n], db), states[n], RowsOf(db, TableOf(texts[n])), states[n + 1], results[n])
  {
    RunFollows(texts, states, results, n);
    RunSteps(texts, states, results, n);
    StepAgrees(texts[n], states[n], DbAfter(texts, n), states[n + 1], results[n]);
  }

  /** The table exists under its name with all the columns of the statement, the marked one as its key, and no rows. */
  ghost predicate IsCreated(s: Statement, before: Database, after: Database)
    requires s.CreateTable?
  {
    && s.table in after && after == before[s.table := after[s.table]] && after[s.table].rows == map[]
    && var def := after[s.table].def;
       && def.name == s.table && def.columns == s.defs
       && exists i :: 0 <= i < |s.defs| && s.defs[i].primaryKey && s.defs[i].name == def.primaryKey
  }

  /**
   In every run, a `CREATE TABLE` errs exactly when two columns share a name, not
   exactly one is marked as primary key, or the table exists. Otherwise the
   database has the table with all its columns, and the catalog its definition.
   */
  lemma {:induction false} CreateInRuns(
    texts: seq<string>, states: seq<State>, results: seq<Option<ResultSet>>, n: nat, s: Statement)
    requires IsRun(texts, states, results) && n < |texts|
    requires SqlParser.Parse(texts[n]) == Some(s) && s.CreateTable?
    ensures results[n].None? <==>
            || (exists i, j :: 0 <= i < j < |s.defs| && s.defs[i].name == s.defs[j].name)
            || |set i | 0 <= i < |s.defs| && s.defs[i].primaryKey| != 1
            || s.table in DbAfter(texts, n)
    ensures results[n].Some? ==>
              && IsCreated(s, DbAfter(texts, n), DbAfter(texts, n + 1))
              && s.table in states[n + 1].tables
              && states[n + 1].tables[s.table] == DbAfter(texts, n + 1)[s.table].def
  {
    RunRefines(texts, states, results, n);
    RunFollows(texts, states, results, n + 1);
    CreateMeans(s, DbAfter(texts, n));
    if results[n].Some? {
      assert TableOk(s.table, DbAfter(texts, n + 1)[s.table], states[n + 1].tables);
    }
  }

  lemma {:induction false} CreateMeans(s: Statement, db: Database)
    requires s.CreateTable?
    ensures Meaning(s, db).None? <==>
            || (exists i, j :: 0 <= i < j < |s.defs| && s.defs[i].name == s.defs[j].name)
            || |set i | 0 <= i < |s.defs| && s.defs[i].primaryKey| != 1
            || s.table in db
    ensures Meaning(s, db).Some? ==> IsCreated(s, db, Meaning(s, db).value.db)
  {
    if Meaning(s, db).Some? {
      MarkedIsOnly(s.defs);
      var i: nat :| SqlCatalog.OnlyKey(s.defs, i);
      KeyNameAt(s.defs, i);
      assert s.defs[i].primaryKey && s.defs[i].name == KeyName(s.defs);
    }
  }
}
