/** Table definitions, the catalog that holds them, and the keys of rows. */
module SqlCatalog {
  import opened Common
  import opened SqlAst

  datatype TableDef = TableDef(name: string, columns: seq<ColumnDef>, primaryKey: string)

  type Tables = map<string, TableDef>

  class Catalog {
    var tables: Tables

    constructor ()
      ensures tables == map[]
    {
      tables := map[];
    }

    /** Adds a definition under a new name; an existing one is not replaced. */
    method CreateTable(def: TableDef) returns (ok: bool)
      modifies this
      ensures ok <==> def.name !in old(tables)
      ensures tables == if ok then old(tables)[def.name := def] else old(tables)
    {
      ok := def.name !in tables;
      if ok {
        tables := tables[def.name := def];
      }
    }

    method GetTable(name: string) returns (def: Option<TableDef>)
      ensures def == Lookup(tables, name)
    {
      def := if name in tables then Some(tables[name]) else None;
    }
  }

  function Lookup(tables: Tables, name: string): Option<TableDef> {
    if name in tables then Some(tables[name]) else None
  }

  /** The key of a row: its table, a slash and the text of its primary key. */
  function RowKey(table: string, pk: string): string {
    table + "/" + pk
  }

  // ---------------------------------------------------------------- columns

  /** The first of the columns with the given name. */
  function FirstNamed(columns: seq<ColumnDef>, name: string): (r: Option<ColumnDef>)
    ensures r.Some? ==> r.value in columns && r.value.name == name
    ensures r.None? ==> forall i :: 0 <= i < |columns| ==> columns[i].name != name
  {
    if columns == [] then None
    else if columns[0].name == name then Some(columns[0])
    else FirstNamed(columns[1..], name)
  }

  function FindColumn(table: TableDef, name: string): Option<ColumnDef> {
    FirstNamed(table.columns, name)
  }

  lemma {:induction false} FirstNamedAt(columns: seq<ColumnDef>, i: nat)
    requires i < |columns| && forall j :: 0 <= j < i ==> columns[j].name != columns[i].name
    ensures FirstNamed(columns, columns[i].name) == Some(columns[i])
    decreases i
  {
    if i > 0 {
      assert columns[0].name != columns[i].name;
      FirstNamedAt(columns[1..], i - 1);
    }
  }

  method SearchColumn(table: TableDef, name: string) returns (r: Option<ColumnDef>)
    ensures r == FindColumn(table, name)
  {
    for i := 0 to |table.columns|
      invariant forall j :: 0 <= j < i ==> table.columns[j].name != name
    {
      if table.columns[i].name == name {
        FirstNamedAt(table.columns, i);
        return Some(table.columns[i]);
      }
    }
    return None;
  }

  // ---------------------------------------------------------------- definitions

  predicate DistinctNames(columns: seq<ColumnDef>) {
    forall i, j :: 0 <= i < j < |columns| ==> columns[i].name != columns[j].name
  }

  /** Column `i` is the only primary key. */
  predicate OnlyKey(columns: seq<ColumnDef>, i: nat) {
    i < |columns| && forall j :: 0 <= j < |columns| ==> (columns[j].primaryKey <==> j == i)
  }

  lemma {:induction false} OnlyKeyIsKey(columns: seq<ColumnDef>)
    ensures forall i: nat :: OnlyKey(columns, i) ==> i < |columns| && columns[i].primaryKey
  {
  }

  /** Distinct column names and exactly one primary key, which is the one named. */
  ghost predicate WellDefined(def: TableDef) {
    && DistinctNames(def.columns)
    && exists i: nat :: OnlyKey(def.columns, i) && def.columns[i].name == def.primaryKey
  }

  lemma {:induction false} KeyColumnFound(def: TableDef)
    requires WellDefined(def)
    ensures var pk := FindColumn(def, def.primaryKey);
            pk.Some? && pk.value in def.columns && pk.value.primaryKey
  {
    var i: nat :| OnlyKey(def.columns, i) && def.columns[i].name == def.primaryKey;
    FirstNamedAt(def.columns, i);
  }
}
