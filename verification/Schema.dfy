/**
 * The auth schema as migrations: the full migration, the difference against a live
 * database, and the way back down. Migrations are lists of statements, and a database is
 * what it reports: lowercased table, column and index names.
 */
module Schema {
  import opened Options

  type Name = string

  // ------------------------------------------------------------------ names

  function LowerChar(c: char): char {
    if 'A' <= c <= 'Z' then (c as int + 32) as char else c
  }

  function Lower(s: string): string {
    seq(|s|, i requires 0 <= i < |s| => LowerChar(s[i]))
  }

  predicate Word(c: char) {
    'a' <= c <= 'z' || '0' <= c <= '9' || c == '_'
  }

  /** Every run of other characters becomes one underscore. */
  function Clean(s: string, inRun: bool): string {
    if s == "" then ""
    else if Word(s[0]) then [s[0]] + Clean(s[1..], false)
    else (if inRun then "" else "_") + Clean(s[1..], true)
  }

  function Underscored(columns: seq<Name>): string {
    if columns == [] then "" else if |columns| == 1 then columns[0] else columns[0] + "_" + Underscored(columns[1..])
  }

  /** The name a blueprint gives an index, and the name the difference looks for. */
  function IndexName(table: Name, columns: seq<Name>, unique: bool): Name {
    Clean(Lower(table + "_" + Underscored(columns) + "_" + if unique then "unique" else "index"), false)
  }

  lemma {:induction false} CleanIsWords(s: string, inRun: bool)
    ensures forall i :: 0 <= i < |Clean(s, inRun)| ==> Word(Clean(s, inRun)[i])
  {
    if s != "" {
      CleanIsWords(s[1..], !Word(s[0]));
    }
  }

  /** An index is reported under the very name it was created with. */
  lemma IndexNameIsLower(table: Name, columns: seq<Name>, unique: bool)
    ensures Lower(IndexName(table, columns, unique)) == IndexName(table, columns, unique)
  {
    CleanIsWords(Lower(table + "_" + Underscored(columns) + "_" + if unique then "unique" else "index"), false);
  }

  // ------------------------------------------------------------------ what the configuration declares

  datatype FieldType = Number | Boolean | Date | Document | Text

  datatype Field = Field(
    name: Name, fieldName: Option<Name>, fieldType: FieldType, references: bool,
    optional: bool, unique: bool, index: bool, sortable: bool, bigint: bool)
  {
    function Column(): Name {
      if fieldName.Some? then fieldName.value else name
    }

    predicate Indexed() {
      unique || index
    }
  }

  datatype Declared = Declared(fields: seq<Name>, unique: bool)

  datatype Table = Table(model: Name, fields: seq<Field>, indexes: seq<Declared>, disabled: bool, order: Option<int>)

  /** An index over several columns, under the name its blueprint gives it. */
  datatype Compound = Compound(columns: seq<Name>, unique: bool, name: Name)

  datatype Single = Single(unique: bool, name: Name)

  datatype Kind = PrimaryKey | VarChar | TextColumn | Integer | BigInteger | BooleanColumn | Timestamp

  /** One blueprint line; `index` is what a trailing `.unique()` or `.index()` creates. */
  datatype Spec = Spec(name: Name, kind: Kind, nullable: bool, index: Option<Single>)

  /** A field name is resolved to its column when the table declares it, and stands for itself otherwise. */
  function ColumnOf(fields: seq<Field>, name: Name): Name {
    if fields == [] then name
    else if fields[0].name == name then fields[0].Column()
    else ColumnOf(fields[1..], name)
  }

  function Compounds(t: Table, declared: seq<Declared>): seq<Compound> {
    if declared == [] then []
    else
      var front, last := declared[..|declared| - 1], declared[|declared| - 1];
      if last.fields == [] then Compounds(t, front)
      else
        var columns := seq(|last.fields|, i requires 0 <= i < |last.fields| => ColumnOf(t.fields, last.fields[i]));
        Compounds(t, front) + [Compound(columns, last.unique, IndexName(t.model, columns, last.unique))]
  }

  function CompoundsOf(t: Table): seq<Compound> {
    Compounds(t, t.indexes)
  }

  predicate Keyed(compounds: seq<Compound>, column: Name) {
    exists i :: 0 <= i < |compounds| && column in compounds[i].columns
  }

  function KindFor(f: Field, keyed: bool): Kind {
    if f.references then VarChar
    else
      match f.fieldType
      case Number => if f.bigint then BigInteger else Integer
      case Boolean => BooleanColumn
      case Date => Timestamp
      case Document => TextColumn
      case Text => if f.sortable || f.unique || f.index || keyed then VarChar else TextColumn
  }

  function SingleName(model: Name, f: Field): Name {
    IndexName(model, [f.Column()], f.unique)
  }

  function SpecFor(model: Name, f: Field, compounds: seq<Compound>): Spec {
    Spec(f.Column(), KindFor(f, Keyed(compounds, f.Column())), f.optional,
         if f.Indexed() then Some(Single(f.unique, SingleName(model, f))) else None)
  }

  function Wanted(t: Table): seq<Name> {
    ["id"] + seq(|t.fields|, i requires 0 <= i < |t.fields| => t.fields[i].Column())
  }

  /** The lines a fresh install writes. */
  function FreshSpecs(t: Table): seq<Spec> {
    [Spec("id", PrimaryKey, false, None)]
    + seq(|t.fields|, i requires 0 <= i < |t.fields| => SpecFor(t.model, t.fields[i], CompoundsOf(t)))
  }

  // ------------------------------------------------------------------ databases and statements

  /** A live table: its columns, what each of its indexes covers, and whether it holds any rows. */
  datatype Live = Live(columns: map<Name, Spec>, indexes: map<Name, seq<Name>>, filled: bool)

  type Db = map<Name, Live>

  /** What `up` is made of. */
  datatype Statement =
    | Create(table: Name, specs: seq<Spec>, compounds: seq<Compound>)
    | AddColumns(table: Name, specs: seq<Spec>)
    | AddIndex(table: Name, compound: Compound)

  /** What `down` is made of. */
  datatype Undoing =
    | DropIfExists(table: Name)
    | DropColumns(table: Name, columns: seq<Name>)
    | DropIndex(table: Name, name: Name)

  datatype Dialect = Sqlite | Mysql | Mariadb | Postgres

  function Lowered(columns: seq<Name>): seq<Name> {
    seq(|columns|, i requires 0 <= i < |columns| => Lower(columns[i]))
  }

  /** MySQL and MariaDB refuse a text column in a key, and fill a required column of their own accord. */
  predicate MysqlLike(dialect: Dialect) {
    dialect.Mysql? || dialect.Mariadb?
  }

  predicate Indexable(dialect: Dialect, live: Live, column: Name) {
    column in live.columns && !(MysqlLike(dialect) && live.columns[column].kind.TextColumn?)
  }

  /** An index needs a name of its own and columns that exist and can be indexed. */
  function GrowIndex(dialect: Dialect, live: Live, name: Name, columns: seq<Name>): Option<Live> {
    if name !in live.indexes && forall i :: 0 <= i < |columns| ==> Indexable(dialect, live, Lower(columns[i])) then
      Some(live.(indexes := live.indexes[name := Lowered(columns)]))
    else None
  }

  /** Without a default no row already there could hold anything in a required column. */
  predicate Fillable(dialect: Dialect, live: Live, spec: Spec) {
    MysqlLike(dialect) || !live.filled || spec.nullable
  }

  function GrowColumn(dialect: Dialect, live: Live, spec: Spec): Option<Live> {
    if Lower(spec.name) in live.columns || !Fillable(dialect, live, spec) then None
    else
      var wider := live.(columns := live.columns[Lower(spec.name) := spec]);
      if spec.index.None? then Some(wider) else GrowIndex(dialect, wider, spec.index.value.name, [spec.name])
  }

  function GrowColumns(dialect: Dialect, live: Live, specs: seq<Spec>): Option<Live> {
    if specs == [] then Some(live)
    else
      var before := GrowColumns(dialect, live, specs[..|specs| - 1]);
      if before.None? then None else GrowColumn(dialect, before.value, specs[|specs| - 1])
  }

  function GrowIndexes(dialect: Dialect, live: Live, compounds: seq<Compound>): Option<Live> {
    if compounds == [] then Some(live)
    else
      var before := GrowIndexes(dialect, live, compounds[..|compounds| - 1]);
      if before.None? then None
      else GrowIndex(dialect, before.value, compounds[|compounds| - 1].name, compounds[|compounds| - 1].columns)
  }

  const NO_TABLE := Live(map[], map[], false)

  function FreshLive(dialect: Dialect, specs: seq<Spec>, compounds: seq<Compound>): Option<Live> {
    var columns := GrowColumns(dialect, NO_TABLE, specs);
    if columns.None? then None else GrowIndexes(dialect, columns.value, compounds)
  }

  function LoweredSet(columns: seq<Name>): set<Name> {
    set i | 0 <= i < |columns| :: Lower(columns[i])
  }

  /** An index over the dropped columns stands in the way: on SQLite any at all, elsewhere one over several columns. */
  predicate Blocks(dialect: Dialect, covered: seq<Name>, gone: set<Name>) {
    (dialect.Sqlite? || |covered| != 1) && exists c :: c in covered && c in gone
  }

  /** Columns are dropped with the indexes on each alone, unless an index stands in the way. */
  function Shrink(dialect: Dialect, live: Live, columns: seq<Name>): Option<Live> {
    var gone := LoweredSet(columns);
    if gone <= live.columns.Keys && forall n :: n in live.indexes ==> !Blocks(dialect, live.indexes[n], gone) then
      Some(Live(live.columns - gone,
                map n | n in live.indexes
                  && !(|live.indexes[n]| == 1 && live.indexes[n][0] in gone) :: live.indexes[n],
                live.filled))
    else None
  }

  function At(db: Db, table: Name, live: Option<Live>): Option<Db> {
    if live.None? then None else Some(db[Lower(table) := live.value])
  }

  /** A statement the database refuses is `None`. */
  function Apply(dialect: Dialect, db: Db, s: Statement): Option<Db> {
    var key := Lower(s.table);
    match s
    case Create(table, specs, compounds) =>
      if key in db then None else At(db, table, FreshLive(dialect, specs, compounds))
    case AddColumns(table, specs) =>
      if key !in db then None else At(db, table, GrowColumns(dialect, db[key], specs))
    case AddIndex(table, compound) =>
      if key !in db then None else At(db, table, GrowIndex(dialect, db[key], compound.name, compound.columns))
  }

  function ApplyAll(dialect: Dialect, db: Db, ss: seq<Statement>): Option<Db> {
    if ss == [] then Some(db)
    else
      var before := ApplyAll(dialect, db, ss[..|ss| - 1]);
      if before.None? then None else Apply(dialect, before.value, ss[|ss| - 1])
  }

  lemma {:induction false} ApplyBoth(dialect: Dialect, db: Db, a: seq<Statement>, b: seq<Statement>)
    ensures var mid := ApplyAll(dialect, db, a);
            ApplyAll(dialect, db, a + b) == if mid.None? then None else ApplyAll(dialect, mid.value, b)
  {
    if b == [] {
      assert a + b == a;
    } else {
      assert (a + b)[..|a + b| - 1] == a + b[..|b| - 1];
      ApplyBoth(dialect, db, a, b[..|b| - 1]);
    }
  }

  lemma ApplyOneMore(dialect: Dialect, db: Db, ss: seq<Statement>, s: Statement)
    ensures var mid := ApplyAll(dialect, db, ss);
            ApplyAll(dialect, db, ss + [s]) == if mid.None? then None else Apply(dialect, mid.value, s)
  {
    assert (ss + [s])[..|ss|] == ss;
  }

  // ------------------------------------------------------------------ the way back

  function NamesOf(specs: seq<Spec>): seq<Name> {
    seq(|specs|, i requires 0 <= i < |specs| => specs[i].name)
  }

  function Inverse(s: Statement): Undoing {
    match s
    case Create(table, _, _) => DropIfExists(table)
    case AddColumns(table, specs) => DropColumns(table, NamesOf(specs))
    case AddIndex(table, c) => DropIndex(table, c.name)
  }

  function Undo(ss: seq<Statement>): seq<Undoing> {
    if ss == [] then [] else [Inverse(ss[|ss| - 1])] + Undo(ss[..|ss| - 1])
  }

  function Revert(dialect: Dialect, db: Db, u: Undoing): Option<Db> {
    var key := Lower(u.table);
    match u
    case DropIfExists(_) => Some(db - {key})
    case DropColumns(table, columns) => if key !in db then None else At(db, table, Shrink(dialect, db[key], columns))
    case DropIndex(_, name) =>
      if key !in db || name !in db[key].indexes then None
      else Some(db[key := db[key].(indexes := db[key].indexes - {name})])
  }

  function RevertAll(dialect: Dialect, db: Db, us: seq<Undoing>): Option<Db> {
    if us == [] then Some(db)
    else
      var next := Revert(dialect, db, us[0]);
      if next.None? then None else RevertAll(dialect, next.value, us[1..])
  }

  /** Every index covers columns of its table. */
  ghost predicate LiveInv(live: Live) {
    forall n, c :: n in live.indexes && c in live.indexes[n] ==> c in live.columns
  }

  ghost predicate DbInv(db: Db) {
    forall k :: k in db ==> LiveInv(db[k])
  }

  function ColumnSet(specs: seq<Spec>): set<Name> {
    set i | 0 <= i < |specs| :: Lower(specs[i].name)
  }

  lemma ColumnSetSnoc(specs: seq<Spec>)
    requires specs != []
    ensures ColumnSet(specs) == ColumnSet(specs[..|specs| - 1]) + {Lower(specs[|specs| - 1].name)}
  {
    var front := specs[..|specs| - 1];
    forall c | c in ColumnSet(specs) ensures c in ColumnSet(front) + {Lower(specs[|specs| - 1].name)} {
      var i :| 0 <= i < |specs| && c == Lower(specs[i].name);
      assert i < |front| ==> front[i] == specs[i];
    }
    forall c | c in ColumnSet(front) ensures c in ColumnSet(specs) {
      var i :| 0 <= i < |front| && c == Lower(front[i].name);
      assert specs[i] == front[i];
    }
  }

  /** What adding columns leaves: the table as it was, the new columns, and indexes on those alone. */
  ghost predicate Widens(a: Live, b: Live, added: set<Name>) {
    && b.columns.Keys == a.columns.Keys + added && a.columns.Keys !! added && b.filled == a.filled
    && (forall c :: c in a.columns ==> b.columns[c] == a.columns[c])
    && (forall n :: n in a.indexes ==> n in b.indexes && b.indexes[n] == a.indexes[n])
    && (forall n :: n in b.indexes && n !in a.indexes ==> |b.indexes[n]| == 1 && b.indexes[n][0] in added)
  }

  lemma OneColumnWidens(dialect: Dialect, live: Live, spec: Spec)
    requires LiveInv(live) && GrowColumn(dialect, live, spec).Some?
    ensures LiveInv(GrowColumn(dialect, live, spec).value)
    ensures Widens(live, GrowColumn(dialect, live, spec).value, {Lower(spec.name)})
  {
    assert Lowered([spec.name]) == [Lower(spec.name)];
  }

  lemma WideningAgain(a: Live, b: Live, c: Live, some: set<Name>, more: set<Name>)
    requires Widens(a, b, some) && Widens(b, c, more)
    ensures Widens(a, c, some + more)
  {}

  lemma {:induction false} GrowingWidens(dialect: Dialect, live: Live, specs: seq<Spec>)
    requires LiveInv(live) && GrowColumns(dialect, live, specs).Some?
    ensures LiveInv(GrowColumns(dialect, live, specs).value)
    ensures Widens(live, GrowColumns(dialect, live, specs).value, ColumnSet(specs))
  {
    if specs != [] {
      var front := specs[..|specs| - 1];
      GrowingWidens(dialect, live, front);
      var mid := GrowColumns(dialect, live, front).value;
      OneColumnWidens(dialect, mid, specs[|specs| - 1]);
      var last := {Lower(specs[|specs| - 1].name)};
      WideningAgain(live, mid, GrowColumns(dialect, live, specs).value, ColumnSet(front), last);
      ColumnSetSnoc(specs);
    }
  }

  /** Some column of the statement comes with an index of its own. */
  predicate AddsIndexed(s: Statement) {
    s.AddColumns? && exists i :: 0 <= i < |s.specs| && s.specs[i].index.Some?
  }

  /** The statement can be taken back: on SQLite only if it adds no indexed column. */
  predicate Reversible(dialect: Dialect, s: Statement) {
    !dialect.Sqlite? || !AddsIndexed(s)
  }

  lemma NamesLowered(specs: seq<Spec>)
    ensures LoweredSet(NamesOf(specs)) == ColumnSet(specs)
  {
    forall c | c in ColumnSet(specs) ensures c in LoweredSet(NamesOf(specs)) {
      var i :| 0 <= i < |specs| && c == Lower(specs[i].name);
      assert NamesOf(specs)[i] == specs[i].name;
    }
  }

  /** Dropping the columns that were added also drops what was indexed on them, and nothing else. */
  lemma WideningUndone(dialect: Dialect, a: Live, b: Live, specs: seq<Spec>)
    requires LiveInv(a) && Widens(a, b, ColumnSet(specs))
    ensures Shrink(dialect, b, NamesOf(specs))
         == if dialect.Sqlite? && b.indexes.Keys != a.indexes.Keys then None else Some(a)
  {
    var gone := ColumnSet(specs);
    NamesLowered(specs);
    assert b.columns - gone == a.columns;
    forall n | n in b.indexes
      ensures n in a.indexes <==> !(|b.indexes[n]| == 1 && b.indexes[n][0] in gone)
      ensures Blocks(dialect, b.indexes[n], gone) <==> dialect.Sqlite? && n !in a.indexes
    {
      if n in a.indexes {
        assert forall c :: c in a.indexes[n] ==> c in a.columns;
        assert |a.indexes[n]| == 1 ==> a.indexes[n][0] in a.indexes[n];
      } else {
        assert b.indexes[n][0] in b.indexes[n];
      }
    }
    assert (map n | n in b.indexes && !(|b.indexes[n]| == 1 && b.indexes[n][0] in gone) :: b.indexes[n]) == a.indexes;
  }

  /** A widening brings new indexes exactly when one of its columns is indexed. */
  lemma {:induction false} WideningIndexes(dialect: Dialect, live: Live, specs: seq<Spec>)
    requires GrowColumns(dialect, live, specs).Some?
    ensures GrowColumns(dialect, live, specs).value.indexes.Keys >= live.indexes.Keys
    ensures GrowColumns(dialect, live, specs).value.indexes.Keys != live.indexes.Keys
       <==> exists i :: 0 <= i < |specs| && specs[i].index.Some?
  {
    if specs != [] {
      var front, last := specs[..|specs| - 1], specs[|specs| - 1];
      WideningIndexes(dialect, live, front);
      assert forall i :: 0 <= i < |front| ==> front[i] == specs[i];
      if last.index.Some? {
        assert last.index.value.name !in GrowColumns(dialect, live, front).value.indexes;
        assert specs[|specs| - 1].index.Some?;
      }
    }
  }

  lemma ColumnsUndone(dialect: Dialect, live: Live, specs: seq<Spec>)
    requires LiveInv(live) && GrowColumns(dialect, live, specs).Some?
    ensures Shrink(dialect, GrowColumns(dialect, live, specs).value, NamesOf(specs))
         == if dialect.Sqlite? && (exists i :: 0 <= i < |specs| && specs[i].index.Some?) then None else Some(live)
  {
    GrowingWidens(dialect, live, specs);
    WideningIndexes(dialect, live, specs);
    WideningUndone(dialect, live, GrowColumns(dialect, live, specs).value, specs);
  }

  /** What a statement did its inverse takes back exactly, or the database refuses to take it back. */
  lemma StatementUndone(dialect: Dialect, db: Db, s: Statement)
    requires DbInv(db) && Apply(dialect, db, s).Some?
    ensures DbInv(Apply(dialect, db, s).value)
    ensures Revert(dialect, Apply(dialect, db, s).value, Inverse(s))
            == if Reversible(dialect, s) then Some(db) else None
  {
    var key := Lower(s.table);
    var after := Apply(dialect, db, s).value;
    match s
    case Create(table, specs, compounds) =>
      assert after - {key} == db;
      GrowingWidens(dialect, NO_TABLE, specs);
      IndexingKeeps(dialect, GrowColumns(dialect, NO_TABLE, specs).value, compounds);
    case AddColumns(table, specs) =>
      GrowingWidens(dialect, db[key], specs);
      ColumnsUndone(dialect, db[key], specs);
      assert after[key := db[key]] == db;
    case AddIndex(table, c) =>
      assert after[key].indexes - {c.name} == db[key].indexes;
      assert after[key := db[key]] == db;
  }

  lemma {:induction false} IndexingKeeps(dialect: Dialect, live: Live, compounds: seq<Compound>)
    requires LiveInv(live) && GrowIndexes(dialect, live, compounds).Some?
    ensures LiveInv(GrowIndexes(dialect, live, compounds).value)
  {
    if compounds != [] {
      IndexingKeeps(dialect, live, compounds[..|compounds| - 1]);
    }
  }

  predicate AllReversible(dialect: Dialect, ss: seq<Statement>) {
    forall i :: 0 <= i < |ss| ==> Reversible(dialect, ss[i])
  }

  lemma AllReversibleSnoc(dialect: Dialect, ss: seq<Statement>)
    requires ss != []
    ensures AllReversible(dialect, ss)
       <==> AllReversible(dialect, ss[..|ss| - 1]) && Reversible(dialect, ss[|ss| - 1])
  {
    var front := ss[..|ss| - 1];
    assert forall i :: 0 <= i < |front| ==> front[i] == ss[i];
  }

  lemma RevertFirst(dialect: Dialect, db: Db, u: Undoing, us: seq<Undoing>)
    ensures RevertAll(dialect, db, [u] + us)
         == var next := Revert(dialect, db, u); if next.None? then None else RevertAll(dialect, next.value, us)
  {
    assert ([u] + us)[1..] == us;
  }

  /**
   * From any database, `down` after `up` restores it, statement by statement, exactly when
   * each statement can be taken back; otherwise the database refuses to go all the way.
   */
  lemma {:induction false} DownUndoesUp(dialect: Dialect, db: Db, ss: seq<Statement>)
    requires DbInv(db) && ApplyAll(dialect, db, ss).Some?
    ensures DbInv(ApplyAll(dialect, db, ss).value)
    ensures RevertAll(dialect, ApplyAll(dialect, db, ss).value, Undo(ss))
            == if AllReversible(dialect, ss) then Some(db) else None
  {
    if ss != [] {
      var front, last := ss[..|ss| - 1], ss[|ss| - 1];
      DownUndoesUp(dialect, db, front);
      StatementUndone(dialect, ApplyAll(dialect, db, front).value, last);
      AllReversibleSnoc(dialect, ss);
      RevertFirst(dialect, ApplyAll(dialect, db, ss).value, Inverse(last), Undo(front));
    }
  }

  // ------------------------------------------------------------------ the full migration

  function Order(t: Table): int {
    if t.order.Some? then t.order.value else 99
  }

  /** A stable sort: a table goes before the ones of its own order. */
  function Insert(t: Table, ts: seq<Table>): seq<Table> {
    if ts == [] || Order(t) <= Order(ts[0]) then [t] + ts else [ts[0]] + Insert(t, ts[1..])
  }

  function Sorted(ts: seq<Table>): seq<Table> {
    if ts == [] then [] else Insert(ts[0], Sorted(ts[1..]))
  }

  function Keep(ts: seq<Table>, wanted: Table -> bool): seq<Table> {
    if ts == [] then []
    else Keep(ts[..|ts| - 1], wanted) + if wanted(ts[|ts| - 1]) then [ts[|ts| - 1]] else []
  }

  function Enabled(ts: seq<Table>): seq<Table> {
    Keep(ts, (t: Table) => !t.disabled)
  }

  function Creates(ts: seq<Table>): seq<Statement> {
    seq(|ts|, i requires 0 <= i < |ts| => Create(ts[i].model, FreshSpecs(ts[i]), CompoundsOf(ts[i])))
  }

  function FullUp(ts: seq<Table>): seq<Statement> {
    Creates(Sorted(Enabled(ts)))
  }

  // ------------------------------------------------------------------ the difference

  /** The wanted columns a live table lacks. */
  function Absent(columns: seq<Name>, live: Live): seq<Name> {
    if columns == [] then []
    else
      var front, last := columns[..|columns| - 1], columns[|columns| - 1];
      if Lower(last) in live.columns then Absent(front, live) else Absent(front, live) + [last]
  }

  function AbsentIndexes(compounds: seq<Compound>, live: Live): seq<Compound> {
    if compounds == [] then []
    else
      var front, last := compounds[..|compounds| - 1], compounds[|compounds| - 1];
      if last.name in live.indexes then AbsentIndexes(front, live)
      else AbsentIndexes(front, live) + [last]
  }

  /** The first table of that name, as the difference looks it up. */
  function Lookup(ts: seq<Table>, model: Name): Option<Table> {
    if ts == [] then None else if ts[0].model == model then Some(ts[0]) else Lookup(ts[1..], model)
  }

  function CompoundFor(ts: seq<Table>, model: Name): seq<Compound> {
    var t := Lookup(ts, model);
    if t.None? then [] else CompoundsOf(t.value)
  }

  function FieldIn(fields: seq<Field>, column: Name): Option<Field> {
    if fields == [] then None
    else if fields[0].Column() == column then Some(fields[0])
    else FieldIn(fields[1..], column)
  }

  function FieldFor(ts: seq<Table>, model: Name, column: Name): Option<Field> {
    if ts == [] then None
    else
      var here := if ts[0].model == model then FieldIn(ts[0].fields, column) else None;
      if here.Some? then here else FieldFor(ts[1..], model, column)
  }

  /** A missing column keeps its declared type; one nobody declared is a nullable string. */
  function AddedSpec(ts: seq<Table>, model: Name, column: Name): Spec {
    var f := FieldFor(ts, model, column);
    if f.Some? then SpecFor(model, f.value, CompoundFor(ts, model)) else Spec(column, VarChar, true, None)
  }

  function AddedSpecs(ts: seq<Table>, model: Name, columns: seq<Name>): seq<Spec> {
    seq(|columns|, i requires 0 <= i < |columns| => AddedSpec(ts, model, columns[i]))
  }

  function CreatedTables(ts: seq<Table>, db: Db): seq<Table> {
    Keep(ts, (t: Table) => Lower(t.model) !in db)
  }

  function ColumnsUp(all: seq<Table>, ts: seq<Table>, db: Db): seq<Statement> {
    if ts == [] then []
    else
      var front, t := ColumnsUp(all, ts[..|ts| - 1], db), ts[|ts| - 1];
      if Lower(t.model) !in db || Absent(Wanted(t), db[Lower(t.model)]) == [] then front
      else front + [AddColumns(t.model, AddedSpecs(all, t.model, Absent(Wanted(t), db[Lower(t.model)])))]
  }

  function AddIndexes(table: Name, compounds: seq<Compound>): seq<Statement> {
    seq(|compounds|, i requires 0 <= i < |compounds| => AddIndex(table, compounds[i]))
  }

  function IndexesUp(all: seq<Table>, ts: seq<Table>, db: Db): seq<Statement> {
    if ts == [] then []
    else
      var front, t := IndexesUp(all, ts[..|ts| - 1], db), ts[|ts| - 1];
      if Lower(t.model) !in db then front
      else front + AddIndexes(t.model, AbsentIndexes(CompoundFor(all, t.model), db[Lower(t.model)]))
  }

  /** The statements of `up`: what is created in full, then columns, then indexes. */
  function DiffUp(ts: seq<Table>, db: Db): seq<Statement> {
    FullUp(CreatedTables(ts, db)) + ColumnsUp(ts, Enabled(ts), db) + IndexesUp(ts, Enabled(ts), db)
  }
}
