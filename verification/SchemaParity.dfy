/**
 The schema parity check (scripts/verify-schema-parity.js): order-independent table
 signatures of two databases, their diff, and what the script's exit code says.
 */
module SchemaParity {
  import opened Options
  import opened StableSorting

  datatype Column = Column(name: string, typ: string, notnull: int, default: Option<string>, pk: int)

  datatype ForeignKey = ForeignKey(table: string, from: string, to: Option<string>)

  /** Rows of PRAGMA table_info and foreign_key_list; the signature drops the extra columns. */
  datatype ColumnRow = ColumnRow(cid: int, column: Column)

  datatype ForeignKeyRow = ForeignKeyRow(id: int, fk: ForeignKey, onUpdate: string, onDelete: string)

  datatype Table = Table(columns: seq<ColumnRow>, fks: seq<ForeignKeyRow>)

  type Schema = map<string, Table>

  datatype TableSignature = TableSignature(columns: seq<Column>, fks: seq<ForeignKey>)

  type Signature = map<string, TableSignature>

  /** What localeCompare decides: a total preorder of strings. */
  type Compare = (string, string) -> bool

  function ByName(le: Compare): (Column, Column) -> bool {
    (a: Column, b: Column) => le(a.name, b.name)
  }

  function ByFrom(le: Compare): (ForeignKey, ForeignKey) -> bool {
    (a: ForeignKey, b: ForeignKey) => le(a.from, b.from)
  }

  lemma PreorderOfKeys(le: Compare)
    requires TotalPreorder(le)
    ensures TotalPreorder(ByName(le)) && TotalPreorder(ByFrom(le))
  {
    forall x: Column, y: Column ensures ByName(le)(x, y) || ByName(le)(y, x) {
      assert le(x.name, y.name) || le(y.name, x.name);
    }
    forall x: ForeignKey, y: ForeignKey ensures ByFrom(le)(x, y) || ByFrom(le)(y, x) {
      assert le(x.from, y.from) || le(y.from, x.from);
    }
    forall x: Column, y: Column, z: Column | ByName(le)(x, y) && ByName(le)(y, z) ensures ByName(le)(x, z) {
      assert le(x.name, y.name) && le(y.name, z.name);
    }
    forall x: ForeignKey, y: ForeignKey, z: ForeignKey | ByFrom(le)(x, y) && ByFrom(le)(y, z) ensures ByFrom(le)(x, z) {
      assert le(x.from, y.from) && le(y.from, z.from);
    }
  }

  function Columns(t: Table): seq<Column> {
    seq(|t.columns|, i requires 0 <= i < |t.columns| => t.columns[i].column)
  }

  function ForeignKeys(t: Table): seq<ForeignKey> {
    seq(|t.fks|, i requires 0 <= i < |t.fks| => t.fks[i].fk)
  }

  function SignatureOf(le: Compare, t: Table): TableSignature {
    TableSignature(Sort(ByName(le), Columns(t)), Sort(ByFrom(le), ForeignKeys(t)))
  }

  /** `name LIKE 'sqlite_%'`: case-insensitive, and the underscore stands for any one character. */
  predicate Internal(name: string) {
    |name| >= 7 && forall i | 0 <= i < 6 :: Lower(name[i]) == "sqlite"[i]
  }

  function Lower(c: char): char {
    if 'A' <= c <= 'Z' then ((c as int) - ('A' as int) + ('a' as int)) as char else c
  }

  /** `tables`: the names the catalogue query returns. */
  method SchemaSignature(le: Compare, db: Schema, tables: seq<string>) returns (sig: Signature)
    requires forall t :: t in tables <==> t in db && !Internal(t)
    ensures forall t :: t in sig <==> t in db && !Internal(t)
    ensures forall t | t in sig :: sig[t] == SignatureOf(le, db[t])
    ensures TotalPreorder(le) ==> forall t | t in sig :: IsSortedRows(le, db[t], sig[t])
  {
    sig := map[];
    for i := 0 to |tables|
      invariant forall t :: t in sig <==> t in tables[..i]
      invariant forall t | t in sig :: t in db && sig[t] == SignatureOf(le, db[t])
    {
      var t := tables[i];
      assert t in tables;
      assert tables[..i + 1] == tables[..i] + [t];
      sig := sig[t := SignatureOf(le, db[t])];
    }
    assert tables[..|tables|] == tables;
    if TotalPreorder(le) {
      forall t | t in sig ensures IsSortedRows(le, db[t], sig[t]) {
        SignatureIsTheSortedRows(le, db[t]);
      }
    }
  }

  // ----- the diff -----

  datatype Diff =
    | OnlyInPath2(table: string)
    | OnlyInPath1(table: string)
    | ColumnDrift(table: string)
    | ForeignKeyDrift(table: string)

  predicate Drifts(a: Signature, b: Signature, d: Diff) {
    match d
    case OnlyInPath2(t) => t !in a && t in b
    case OnlyInPath1(t) => t in a && t !in b
    case ColumnDrift(t) => t in a && t in b && a[t].columns != b[t].columns
    case ForeignKeyDrift(t) => t in a && t in b && a[t].fks != b[t].fks
  }

  ghost predicate TotalOrder(le: Compare) {
    TotalPreorder(le) && forall x, y :: le(x, y) && le(y, x) ==> x == y
  }

  /** Reported in table order; a table's columns before its keys. */
  ghost predicate InOrder(before: Compare, diffs: seq<Diff>) {
    forall i, j :: 0 <= i < j < |diffs| ==>
      || (before(diffs[i].table, diffs[j].table) && diffs[i].table != diffs[j].table)
      || (diffs[i].table == diffs[j].table && diffs[i].ColumnDrift? && diffs[j].ForeignKeyDrift?)
  }

  lemma {:induction false} LeastExists(before: Compare, names: set<string>) returns (t: string)
    requires TotalOrder(before) && names != {}
    ensures t in names && forall u | u in names :: before(t, u)
    decreases |names|
  {
    var x :| x in names;
    if names == {x} {
      t := x;
    } else {
      assert names - {x} != {};
      var y := LeastExists(before, names - {x});
      t := if before(x, y) then x else y;
    }
  }

  /** What is reported so far: the drifts of exactly the tables before those still to do. */
  ghost predicate Reported(before: Compare, a: Signature, b: Signature, todo: set<string>, diffs: seq<Diff>) {
    && (forall d :: d in diffs <==> Drifts(a, b, d) && d.table !in todo)
    && (forall d, u | d in diffs && u in todo :: before(d.table, u))
    && InOrder(before, diffs)
  }

  /** The entries one table adds. */
  ghost predicate EntriesOf(a: Signature, b: Signature, t: string, entries: seq<Diff>) {
    && (forall d :: d in entries <==> Drifts(a, b, d) && d.table == t)
    && (|entries| <= 1 || (|entries| == 2 && entries[0] == ColumnDrift(t) && entries[1] == ForeignKeyDrift(t)))
  }

  lemma ReportOne(before: Compare, a: Signature, b: Signature, todo: set<string>, diffs: seq<Diff>, t: string, entries: seq<Diff>)
    requires TotalOrder(before) && Reported(before, a, b, todo, diffs)
    requires t in todo && forall u | u in todo :: before(t, u)
    requires EntriesOf(a, b, t, entries)
    ensures Reported(before, a, b, todo - {t}, diffs + entries)
  {
    var r := diffs + entries;
    forall i, j | 0 <= i < j < |r|
      ensures || (before(r[i].table, r[j].table) && r[i].table != r[j].table)
              || (r[i].table == r[j].table && r[i].ColumnDrift? && r[j].ForeignKeyDrift?)
    {
      if i < |diffs| <= j {
        assert r[i] in diffs && r[j] in entries;
      }
    }
    assert forall d :: d in r <==> d in diffs || d in entries;
    assert forall d | d in entries :: d.table == t;
  }

  /** `before`: the order of the default sort of strings. */
  method DiffSignatures(before: Compare, a: Signature, b: Signature) returns (diffs: seq<Diff>)
    requires TotalOrder(before)
    ensures forall d :: d in diffs <==> Drifts(a, b, d)
    ensures InOrder(before, diffs)
  {
    var todo := a.Keys + b.Keys;
    diffs := [];
    assert forall d :: Drifts(a, b, d) ==> d.table in todo;
    while todo != {}
      invariant todo <= a.Keys + b.Keys
      invariant Reported(before, a, b, todo, diffs)
      decreases |todo|
    {
      ghost var least := LeastExists(before, todo);
      var t :| t in todo && forall u | u in todo :: before(t, u);
      var entries := DiffTable(a, b, t);
      ReportOne(before, a, b, todo, diffs, t, entries);
      todo := todo - {t};
      diffs := diffs + entries;
    }
  }

  /** One round of the loop. */
  method DiffTable(a: Signature, b: Signature, t: string) returns (entries: seq<Diff>)
    requires t in a || t in b
    ensures EntriesOf(a, b, t, entries)
  {
    if t !in a {
      return [OnlyInPath2(t)];
    }
    if t !in b {
      return [OnlyInPath1(t)];
    }
    entries := [];
    if a[t].columns != b[t].columns {
      entries := [ColumnDrift(t)];
    }
    if a[t].fks != b[t].fks {
      entries := entries + [ForeignKeyDrift(t)];
    }
  }

  // ----- the script -----

  /** The part of main after the two databases are built. Exit code 0, or 1 with the drifts printed. */
  method CheckParity(le: Compare, before: Compare, db1: Schema, tables1: seq<string>, db2: Schema, tables2: seq<string>)
    returns (exitCode: int, diffs: seq<Diff>)
    requires TotalOrder(before)
    requires forall t :: t in tables1 <==> t in db1 && !Internal(t)
    requires forall t :: t in tables2 <==> t in db2 && !Internal(t)
    ensures exitCode == (if diffs == [] then 0 else 1)
    ensures exitCode == 0 <==> Covered(le, db1, db2)
    ensures TotalPreorder(le) && UniqueRows(le, db1) && UniqueRows(le, db2) ==> (exitCode == 0 <==> IsSubset(db1, db2))
    ensures forall d | d in diffs :: !d.OnlyInPath1?
    ensures forall t :: OnlyInPath2(t) in diffs <==> t in db2 && !OwnTable(t) && t !in db1
  {
    var sig1 := SchemaSignature(le, db1, tables1);
    var sig2 := SchemaSignature(le, db2, tables2);
    diffs := DiffSignatures(before, Shared(sig1, sig2), sig2);
    exitCode := if |diffs| > 0 then 1 else 0;
    DriftsTell(le, db1, sig1, db2, sig2, diffs);
    WhatCoverageMeans(le, db1, db2);
  }

  /** `sig` is the signature of `db`. */
  ghost predicate IsSignature(le: Compare, db: Schema, sig: Signature) {
    && (forall t :: t in sig <==> t in db && !Internal(t))
    && (forall t | t in sig :: sig[t] == SignatureOf(le, db[t]))
  }

  /** `path1Filtered`: the tables of path 1 that path 2 has too. */
  function Shared(sig1: Signature, sig2: Signature): Signature {
    map t | t in sig1 && t in sig2 :: sig1[t]
  }

  lemma DriftsTell(le: Compare, db1: Schema, sig1: Signature, db2: Schema, sig2: Signature, diffs: seq<Diff>)
    requires IsSignature(le, db1, sig1) && IsSignature(le, db2, sig2)
    requires forall d :: d in diffs <==> Drifts(Shared(sig1, sig2), sig2, d)
    ensures diffs == [] <==> Covered(le, db1, db2)
    ensures forall d | d in diffs :: !d.OnlyInPath1?
    ensures forall t :: OnlyInPath2(t) in diffs <==> t in db2 && !Internal(t) && t !in db1
  {
    if diffs != [] {
      assert diffs[0] in diffs;
    } else {
      forall t | t in sig2 ensures t in db1 && SignatureOf(le, db1[t]) == SignatureOf(le, db2[t]) {
        assert OnlyInPath2(t) !in diffs && ColumnDrift(t) !in diffs && ForeignKeyDrift(t) !in diffs;
      }
    }
  }

  lemma WhatCoverageMeans(le: Compare, db1: Schema, db2: Schema)
    ensures forall t :: Internal(t) <==> OwnTable(t)
    ensures TotalPreorder(le) && UniqueRows(le, db1) && UniqueRows(le, db2) ==> (Covered(le, db1, db2) <==> IsSubset(db1, db2))
  {
    forall t ensures Internal(t) <==> OwnTable(t) {
      InternalMeansOwn(t);
    }
    if TotalPreorder(le) && UniqueRows(le, db1) && UniqueRows(le, db2) {
      ParityMeansSubset(le, db1, db2);
    }
  }

  /** Every table of path 2 exists in path 1 with the same signature. */
  ghost predicate Covered(le: Compare, db1: Schema, db2: Schema) {
    forall t | t in db2 && !Internal(t) :: t in db1 && SignatureOf(le, db1[t]) == SignatureOf(le, db2[t])
  }

  // ----- what equal signatures mean, in terms of the rows -----

  ghost predicate HasColumn(t: Table, c: Column) {
    exists i :: 0 <= i < |t.columns| && t.columns[i].column == c
  }

  ghost predicate HasKey(t: Table, k: ForeignKey) {
    exists i :: 0 <= i < |t.fks| && t.fks[i].fk == k
  }

  ghost predicate SameColumns(a: Table, b: Table) {
    forall c :: HasColumn(a, c) <==> HasColumn(b, c)
  }

  ghost predicate SameKeys(a: Table, b: Table) {
    forall k :: HasKey(a, k) <==> HasKey(b, k)
  }

  lemma RowsAreListed(t: Table)
    ensures forall c :: c in Columns(t) <==> HasColumn(t, c)
    ensures forall k :: k in ForeignKeys(t) <==> HasKey(t, k)
  {
    forall c ensures c in Columns(t) <==> HasColumn(t, c) {
      if i :| 0 <= i < |t.columns| && t.columns[i].column == c {
        assert Columns(t)[i] == c;
      }
    }
    forall k ensures k in ForeignKeys(t) <==> HasKey(t, k) {
      if i :| 0 <= i < |t.fks| && t.fks[i].fk == k {
        assert ForeignKeys(t)[i] == k;
      }
    }
  }

  predicate UniqueNames(le: Compare, t: Table) {
    forall i, j :: 0 <= i < j < |t.columns| ==> !Same(le, t.columns[i].column.name, t.columns[j].column.name)
  }

  predicate UniqueFroms(le: Compare, t: Table) {
    forall i, j :: 0 <= i < j < |t.fks| ==> !Same(le, t.fks[i].fk.from, t.fks[j].fk.from)
  }

  /** Column signatures are canonical. */
  lemma ColumnSignatureIsCanonical(le: Compare, a: Table, b: Table)
    requires TotalPreorder(le) && UniqueNames(le, a) && UniqueNames(le, b)
    ensures SignatureOf(le, a).columns == SignatureOf(le, b).columns
            <==> SameColumns(a, b)
  {
    PreorderOfKeys(le);
    RowsAreListed(a);
    RowsAreListed(b);
    assert SameColumns(a, b) <==> forall c :: c in Columns(a) <==> c in Columns(b) by {
      assert forall c :: (c in Columns(a) <==> HasColumn(a, c)) && (c in Columns(b) <==> HasColumn(b, c));
    }
    SortEqualIffSameElements(ByName(le), Columns(a), Columns(b));
  }

  /** Key signatures are canonical while no two keys of a table start at the same column. */
  lemma ForeignKeySignatureIsCanonical(le: Compare, a: Table, b: Table)
    requires TotalPreorder(le) && UniqueFroms(le, a) && UniqueFroms(le, b)
    ensures SignatureOf(le, a).fks == SignatureOf(le, b).fks
            <==> SameKeys(a, b)
  {
    PreorderOfKeys(le);
    RowsAreListed(a);
    RowsAreListed(b);
    assert SameKeys(a, b) <==> forall k :: k in ForeignKeys(a) <==> k in ForeignKeys(b) by {
      assert forall k :: (k in ForeignKeys(a) <==> HasKey(a, k)) && (k in ForeignKeys(b) <==> HasKey(b, k));
    }
    SortEqualIffSameElements(ByFrom(le), ForeignKeys(a), ForeignKeys(b));
  }

  /** In general, keys that start at the same column must also come in the same order. */
  lemma ForeignKeySignatureInGeneral(le: Compare, a: Table, b: Table)
    requires TotalPreorder(le)
    ensures SignatureOf(le, a).fks == SignatureOf(le, b).fks
            <==> SameClasses(ByFrom(le), ForeignKeys(a), ForeignKeys(b))
  {
    PreorderOfKeys(le);
    SortEqualIffClassesEqual(ByFrom(le), ForeignKeys(a), ForeignKeys(b));
  }

  /** Two keys on one column, listed in the other order, read as drift although the key sets are equal. */
  lemma SharedFromReadsAsDrift(le: Compare, k1: ForeignKey, k2: ForeignKey)
    requires TotalPreorder(le) && k1.from == k2.from && k1 != k2
    ensures var a := Table([], [ForeignKeyRow(0, k1, "", ""), ForeignKeyRow(1, k2, "", "")]);
            var b := Table([], [ForeignKeyRow(0, k2, "", ""), ForeignKeyRow(1, k1, "", "")]);
            && SameKeys(a, b)
            && SignatureOf(le, a).fks != SignatureOf(le, b).fks
  {
    var a := Table([], [ForeignKeyRow(0, k1, "", ""), ForeignKeyRow(1, k2, "", "")]);
    var b := Table([], [ForeignKeyRow(0, k2, "", ""), ForeignKeyRow(1, k1, "", "")]);
    var order := ByFrom(le);
    assert ForeignKeys(a) == [k1] + [k2] && ForeignKeys(b) == [k2] + [k1];
    ClassOneMore(order, [], k1, k1);
    ClassOneMore(order, [k1], k2, k1);
    ClassOneMore(order, [], k2, k1);
    ClassOneMore(order, [k2], k1, k1);
    assert [] + [k1] == [k1] && [] + [k2] == [k2];
    assert ClassOf(order, ForeignKeys(a), k1) == [k1, k2] && ClassOf(order, ForeignKeys(b), k1) == [k2, k1];
    ForeignKeySignatureInGeneral(le, a, b);
    RowsAreListed(a);
    RowsAreListed(b);
  }

  /** No two columns of a table have one name, and no two keys start at one column. */
  predicate UniqueRows(le: Compare, db: Schema) {
    forall t | t in db :: UniqueNames(le, db[t]) && UniqueFroms(le, db[t])
  }

  /** Each table of path 2, SQLite's own aside, is in path 1 with the same columns and the same keys. */
  ghost predicate IsSubset(db1: Schema, db2: Schema) {
    forall t | t in db2 && !OwnTable(t) :: t in db1 && SameColumns(db1[t], db2[t]) && SameKeys(db1[t], db2[t])
  }

  /** The name is `sqlite` in any case and at least one more character. */
  ghost predicate OwnTable(name: string) {
    exists start, rest ::
      && name == start + rest && |start| == 6 && |rest| >= 1
      && forall i | 0 <= i < 6 :: start[i] == "sqlite"[i] || start[i] == "SQLITE"[i]
  }

  lemma InternalMeansOwn(name: string)
    ensures Internal(name) <==> OwnTable(name)
  {
    if Internal(name) {
      var start, rest := name[..6], name[6..];
      assert name == start + rest;
      forall i | 0 <= i < 6 ensures start[i] == "sqlite"[i] || start[i] == "SQLITE"[i] {
        assert Lower(name[i]) == "sqlite"[i];
      }
    }
    if OwnTable(name) {
      var start, rest :| name == start + rest && |start| == 6 && |rest| >= 1
        && forall i | 0 <= i < 6 :: start[i] == "sqlite"[i] || start[i] == "SQLITE"[i];
      forall i | 0 <= i < 6 ensures Lower(name[i]) == "sqlite"[i] {
        assert name[i] == start[i];
      }
    }
  }

  /** The script's signatures cover path 2 exactly when its tables are a subset of path 1's, row for row. */
  lemma ParityMeansSubset(le: Compare, db1: Schema, db2: Schema)
    requires TotalPreorder(le) && UniqueRows(le, db1) && UniqueRows(le, db2)
    ensures Covered(le, db1, db2) <==> IsSubset(db1, db2)
  {
    forall t ensures Internal(t) <==> OwnTable(t) {
      InternalMeansOwn(t);
    }
    forall t | t in db2 && t in db1
      ensures SignatureOf(le, db1[t]) == SignatureOf(le, db2[t]) <==> SameColumns(db1[t], db2[t]) && SameKeys(db1[t], db2[t])
    {
      ColumnSignatureIsCanonical(le, db1[t], db2[t]);
      ForeignKeySignatureIsCanonical(le, db1[t], db2[t]);
    }
  }

  /** The table's rows, all of them, sorted: columns by name, keys by the column they start at. */
  ghost predicate IsSortedRows(le: Compare, t: Table, sig: TableSignature) {
    && (forall c :: c in sig.columns <==> HasColumn(t, c)) && |sig.columns| == |t.columns|
    && (forall k :: k in sig.fks <==> HasKey(t, k)) && |sig.fks| == |t.fks|
    && (forall i, j :: 0 <= i < j < |sig.columns| ==> le(sig.columns[i].name, sig.columns[j].name))
    && (forall i, j :: 0 <= i < j < |sig.fks| ==> le(sig.fks[i].from, sig.fks[j].from))
  }

  lemma SignatureIsTheSortedRows(le: Compare, t: Table)
    requires TotalPreorder(le)
    ensures IsSortedRows(le, t, SignatureOf(le, t))
  {
    PreorderOfKeys(le);
    RowsAreListed(t);
    SortSorts(ByName(le), Columns(t));
    SortSorts(ByFrom(le), ForeignKeys(t));
    SortKeepsElements(ByName(le), Columns(t));
    SortKeepsElements(ByFrom(le), ForeignKeys(t));
  }
}
