/**
 * What the columns and indexes of a migrated database are: for every declared field the
 * kind its type asks for, and for every declared index the columns it names.
 */
module DeclaredColumns {
  import opened Options
  import opened Schema
  import opened SchemaProofs

  // ------------------------------------------------------------------ index names

  /** The character so many places after another. */
  predicate After(c: char, first: char, places: int) {
    c as int == first as int + places
  }

  /** The 26 capitals become the small letters at their places, and nothing else changes. */
  lemma CapitalsAreLowered(c: char, places: int)
    ensures 0 <= places < 26 && After(c, 'A', places) ==> After(LowerChar(c), 'a', places)
    ensures (forall k :: After(c, 'A', k) ==> !(0 <= k < 26)) ==> LowerChar(c) == c
  {
    assert After(c, 'A', c as int - 'A' as int);
  }

  /** The characters of an index name: the 26 small letters, the ten digits and the underscore. */
  lemma NamesAreMadeOf(c: char)
    ensures Word(c) <==> || c == '_' || (exists k :: 0 <= k < 26 && After(c, 'a', k))
                         || (exists k :: 0 <= k < 10 && After(c, '0', k))
  {
    assert After(c, 'a', c as int - 'a' as int) && After(c, '0', c as int - '0' as int);
  }

  predicate Plain(s: string) {
    forall i :: 0 <= i < |s| ==> Word(s[i])
  }

  predicate NoWord(s: string) {
    forall i :: 0 <= i < |s| ==> !Word(s[i])
  }

  lemma {:induction false} RunIsSwallowed(gap: string, rest: string)
    requires NoWord(gap)
    ensures Clean(gap + rest, true) == Clean(rest, true)
  {
    if gap == "" {
      assert gap + rest == rest;
    } else {
      assert (gap + rest)[1..] == gap[1..] + rest;
      RunIsSwallowed(gap[1..], rest);
    }
  }

  /** Letters, digits and underscores stay; whatever stands between two stretches of them becomes one underscore. */
  lemma {:induction false} NameIsCleaned(word: string, gap: string, rest: string, inRun: bool)
    requires Plain(word) && NoWord(gap) && gap != "" && (rest == "" || Word(rest[0]))
    requires word != "" || !inRun
    ensures Clean(word + gap + rest, inRun) == word + "_" + Clean(rest, false)
    decreases |word|
  {
    var name := word + gap + rest;
    if word != "" {
      assert name[1..] == word[1..] + gap + rest;
      NameIsCleaned(word[1..], gap, rest, false);
    } else {
      assert name[1..] == gap[1..] + rest;
      RunIsSwallowed(gap[1..], rest);
    }
  }

  lemma {:induction false} PlainStays(word: string, inRun: bool)
    requires Plain(word)
    ensures Clean(word, inRun) == word
  {
    if word != "" {
      PlainStays(word[1..], false);
    }
  }

  /** The columns one after another, an underscore between any two. */
  lemma {:induction false} ColumnsAreJoined(columns: seq<Name>, column: Name)
    ensures Underscored([column]) == column
    ensures columns != [] ==> Underscored(columns + [column]) == Underscored(columns) + "_" + column
  {
    if |columns| > 1 {
      assert (columns + [column])[1..] == columns[1..] + [column];
      ColumnsAreJoined(columns[1..], column);
    }
  }

  lemma LowerJoins(a: string, b: string)
    ensures Lower(a + b) == Lower(a) + Lower(b)
  {}

  lemma PlainJoins(a: string, b: string)
    requires Plain(a) && Plain(b)
    ensures Plain(a + b)
  {}

  lemma SuffixIsLower(unique: bool)
    ensures var suffix := "_" + if unique then "unique" else "index";
            Plain(suffix) && Lower(suffix) == suffix && Lower("_") == "_"
  {}

  /** An index is named after its table, its columns and what it is. */
  lemma NameSaysWhat(table: Name, columns: seq<Name>, unique: bool)
    requires Plain(Lower(table)) && Plain(Lower(Underscored(columns)))
    ensures IndexName(table, columns, unique)
         == Lower(table) + "_" + Lower(Underscored(columns)) + "_" + if unique then "unique" else "index"
  {
    var joined, suffix := Underscored(columns), "_" + if unique then "unique" else "index";
    SuffixIsLower(unique);
    LowerJoins(table, "_");
    LowerJoins(table + "_", joined);
    LowerJoins(table + "_" + joined, suffix);
    var name := Lower(table) + "_" + Lower(joined);
    assert Plain(name) by {
      PlainJoins(Lower(table), "_");
      PlainJoins(Lower(table) + "_", Lower(joined));
    }
    PlainJoins(name, suffix);
    PlainStays(name + suffix, false);
    assert table + "_" + joined + suffix == table + "_" + joined + "_" + if unique then "unique" else "index";
    assert name + suffix == name + "_" + if unique then "unique" else "index";
  }

  // ------------------------------------------------------------------ what statements leave on a table

  /** Nothing that was there changed. */
  ghost predicate Keeps(was: Live, after: Live) {
    && after.filled == was.filled
    && (forall c :: c in was.columns ==> c in after.columns && after.columns[c] == was.columns[c])
    && (forall n :: n in was.indexes ==> n in after.indexes && after.indexes[n] == was.indexes[n])
  }

  predicate HasIndex(live: Live, name: Name, columns: seq<Name>) {
    name in live.indexes && live.indexes[name] == Lowered(columns)
  }

  /** The column stands as its line says, and so does the index the line asks for. */
  predicate HasLine(live: Live, spec: Spec) {
    && Lower(spec.name) in live.columns && live.columns[Lower(spec.name)] == spec
    && (spec.index.Some? ==> HasIndex(live, spec.index.value.name, [spec.name]))
  }

  lemma KeepsLine(a: Live, b: Live, spec: Spec)
    requires Keeps(a, b) && HasLine(a, spec)
    ensures HasLine(b, spec)
  {}

  lemma OneLine(dialect: Dialect, live: Live, spec: Spec)
    requires GrowColumn(dialect, live, spec).Some?
    ensures Keeps(live, GrowColumn(dialect, live, spec).value) && HasLine(GrowColumn(dialect, live, spec).value, spec)
  {}

  lemma {:induction false} AllLines(dialect: Dialect, live: Live, specs: seq<Spec>, i: nat)
    requires GrowColumns(dialect, live, specs).Some?
    ensures Keeps(live, GrowColumns(dialect, live, specs).value)
    ensures i < |specs| ==> HasLine(GrowColumns(dialect, live, specs).value, specs[i])
  {
    if specs != [] {
      var front, last := specs[..|specs| - 1], specs[|specs| - 1];
      var mid := GrowColumns(dialect, live, front).value;
      AllLines(dialect, live, front, i);
      OneLine(dialect, mid, last);
      if i < |front| {
        KeepsLine(mid, GrowColumns(dialect, live, specs).value, front[i]);
      }
    }
  }

  lemma {:induction false} AllIndexesStand(dialect: Dialect, live: Live, compounds: seq<Compound>, i: nat)
    requires GrowIndexes(dialect, live, compounds).Some?
    ensures Keeps(live, GrowIndexes(dialect, live, compounds).value)
    ensures i < |compounds| ==>
              HasIndex(GrowIndexes(dialect, live, compounds).value, compounds[i].name, compounds[i].columns)
  {
    if compounds != [] {
      AllIndexesStand(dialect, live, compounds[..|compounds| - 1], i);
    }
  }

  lemma UpgradedKeeps(dialect: Dialect, live: Live, specs: seq<Spec>, out: seq<Compound>)
    requires Upgraded(dialect, live, specs, out).Some?
    ensures Keeps(live, Upgraded(dialect, live, specs, out).value)
  {
    var grown := GrowColumns(dialect, live, specs).value;
    AllLines(dialect, live, specs, 0);
    AllIndexesStand(dialect, grown, out, 0);
  }

  lemma UpgradedHasLine(dialect: Dialect, live: Live, specs: seq<Spec>, out: seq<Compound>, spec: Spec)
    requires Upgraded(dialect, live, specs, out).Some? && spec in specs
    ensures HasLine(Upgraded(dialect, live, specs, out).value, spec)
  {
    var i :| 0 <= i < |specs| && specs[i] == spec;
    var grown := GrowColumns(dialect, live, specs).value;
    AllLines(dialect, live, specs, i);
    AllIndexesStand(dialect, grown, out, 0);
    KeepsLine(grown, Upgraded(dialect, live, specs, out).value, spec);
  }

  lemma UpgradedHasIndex(dialect: Dialect, live: Live, specs: seq<Spec>, out: seq<Compound>, c: Compound)
    requires Upgraded(dialect, live, specs, out).Some? && c in out
    ensures HasIndex(Upgraded(dialect, live, specs, out).value, c.name, c.columns)
  {
    var i :| 0 <= i < |out| && out[i] == c;
    AllIndexesStand(dialect, GrowColumns(dialect, live, specs).value, out, i);
  }

  // ------------------------------------------------------------------ one table

  lemma ResultKeeps(dialect: Dialect, ts: seq<Table>, t: Table, db: Db)
    requires Key(t) in db && Result(dialect, ts, t, db).Some?
    ensures Keeps(db[Key(t)], Result(dialect, ts, t, db).value)
  {
    var live := db[Key(t)];
    UpgradedKeeps(dialect, live, AddedSpecs(ts, t.model, Absent(Wanted(t), live)),
                  AbsentIndexes(CompoundsOf(t), live));
  }

  lemma ResultHasField(dialect: Dialect, ts: seq<Table>, t: Table, db: Db, a: nat)
    requires WellFormed(ts, db) && t in ts && !t.disabled && Result(dialect, ts, t, db).Some?
    requires Lacks(t, Standing(t, db), a)
    ensures HasLine(Result(dialect, ts, t, db).value, FieldSpec(t, a))
  {
    TablesKnown(ts);
    if Key(t) in db {
      var live := db[Key(t)];
      LackingIsAdded(ts, t, live, a);
      UpgradedHasLine(dialect, live, AddedSpecs(ts, t.model, Absent(Wanted(t), live)),
                      AbsentIndexes(CompoundsOf(t), live), FieldSpec(t, a));
    } else {
      assert FreshSpecs(t)[a + 1] == FieldSpec(t, a);
      UpgradedHasLine(dialect, NO_TABLE, FreshSpecs(t), CompoundsOf(t), FieldSpec(t, a));
    }
  }

  lemma ResultHasIndex(dialect: Dialect, ts: seq<Table>, t: Table, db: Db, c: Compound)
    requires WellFormed(ts, db) && t in ts && !t.disabled && Result(dialect, ts, t, db).Some?
    requires Awaited(t, Standing(t, db), c)
    ensures HasIndex(Result(dialect, ts, t, db).value, c.name, c.columns)
  {
    if Key(t) in db {
      var live := db[Key(t)];
      AbsentIndexMembers(CompoundsOf(t), live);
      UpgradedHasIndex(dialect, live, AddedSpecs(ts, t.model, Absent(Wanted(t), live)),
                       AbsentIndexes(CompoundsOf(t), live), c);
    } else {
      UpgradedHasIndex(dialect, NO_TABLE, FreshSpecs(t), CompoundsOf(t), c);
    }
  }

  // ------------------------------------------------------------------ what the configuration asks for

  /** The name a field has in the database. */
  predicate CalledInDb(f: Field, column: Name) {
    f.fieldName == Some(column) || (f.fieldName.None? && f.name == column)
  }

  /** The kind of column that holds a field of a table. */
  ghost predicate KindAsDeclared(t: Table, f: Field, kind: Kind) {
    if f.references then kind == VarChar
    else
      && (f.fieldType.Boolean? ==> kind == BooleanColumn) && (f.fieldType.Date? ==> kind == Timestamp)
      && (f.fieldType.Document? ==> kind == TextColumn)
      && (f.fieldType.Number? ==> kind in {Integer, BigInteger} && (kind == BigInteger <==> f.bigint))
      && (f.fieldType.Text? ==> kind in {VarChar, TextColumn} && (kind == VarChar <==> f.sortable || InAnIndex(t, f)))
  }

  lemma KindMatches(t: Table, a: nat)
    requires a < |t.fields|
    ensures KindAsDeclared(t, t.fields[a], FieldSpec(t, a).kind)
  {
    var f, compounds := t.fields[a], CompoundsOf(t);
    if f.fieldType.Text? && !f.Indexed() {
      if c :| c in compounds && f.Column() in c.columns {
        var i :| 0 <= i < |compounds| && compounds[i] == c;
        assert Keyed(compounds, f.Column());
      }
    }
  }

  /** A column as its field declares it: kind, whether it may be null, and its own index, unique or not. */
  ghost predicate AsDeclared(t: Table, f: Field, column: Name, live: Live) {
    && Lower(column) in live.columns
    && var spec := live.columns[Lower(column)];
       && KindAsDeclared(t, f, spec.kind) && spec.nullable == f.optional
       && (spec.index.Some? <==> f.unique || f.index)
       && (spec.index.Some? ==> spec.index.value.unique == f.unique)
       && (f.unique || f.index ==> HasIndex(live, IndexName(t.model, [column], f.unique), [column]))
  }

  /**
   * Once `up` has run, the column of every declared field of an enabled table is the one
   * that was there, untouched, or one just as the field declares it.
   */
  lemma ColumnsAreAsDeclared(dialect: Dialect, ts: seq<Table>, t: Table, db: Db, a: nat, column: Name)
    requires WellFormed(ts, db) && t in ts && !t.disabled
    requires a < |t.fields| && CalledInDb(t.fields[a], column)
    ensures var applied := ApplyAll(dialect, db, DiffUp(ts, db));
            applied.Some? ==>
              && Key(t) in applied.value
              && var was, after := Standing(t, db), applied.value[Key(t)];
                 if Lower(column) in was.columns
                 then Lower(column) in after.columns && after.columns[Lower(column)] == was.columns[Lower(column)]
                 else AsDeclared(t, t.fields[a], column, after)
  {
    UpLeaves(dialect, ts, db);
    var applied := ApplyAll(dialect, db, DiffUp(ts, db));
    if applied.Some? {
      assert Result(dialect, ts, t, db) == Some(applied.value[Key(t)]);
      if Lower(column) in Standing(t, db).columns {
        ResultKeeps(dialect, ts, t, db);
      } else {
        ResultHasField(dialect, ts, t, db, a);
        KindMatches(t, a);
      }
    }
  }

  // ------------------------------------------------------------------ compound indexes

  /** A field name in an index stands for the column of the first field so called, or for itself if there is none. */
  ghost predicate StandsFor(t: Table, name: Name, column: Name) {
    || ((forall a :: 0 <= a < |t.fields| ==> t.fields[a].name != name) && column == name)
    || (exists a :: 0 <= a < |t.fields| && FirstCalled(t.fields, name, a) && CalledInDb(t.fields[a], column))
  }

  ghost predicate FirstCalled(fields: seq<Field>, name: Name, a: int) {
    0 <= a < |fields| && fields[a].name == name && forall b :: 0 <= b < a ==> fields[b].name != name
  }

  lemma {:induction false} ColumnOfFirst(fields: seq<Field>, name: Name, a: nat)
    requires FirstCalled(fields, name, a)
    ensures CalledInDb(fields[a], ColumnOf(fields, name))
  {
    if a > 0 {
      ColumnOfFirst(fields[1..], name, a - 1);
    }
  }

  lemma {:induction false} ColumnOfNone(fields: seq<Field>, name: Name)
    requires forall a :: 0 <= a < |fields| ==> fields[a].name != name
    ensures ColumnOf(fields, name) == name
  {
    if fields != [] {
      ColumnOfNone(fields[1..], name);
    }
  }

  lemma OnlyColumn(t: Table, name: Name, column: Name)
    requires StandsFor(t, name, column)
    ensures ColumnOf(t.fields, name) == column
  {
    if forall a :: 0 <= a < |t.fields| ==> t.fields[a].name != name {
      ColumnOfNone(t.fields, name);
    } else {
      var a :| 0 <= a < |t.fields| && FirstCalled(t.fields, name, a) && CalledInDb(t.fields[a], column);
      ColumnOfFirst(t.fields, name, a);
    }
  }

  /** The columns, one for one, that the field names of a declared index stand for. */
  ghost predicate Spells(t: Table, declared: Declared, columns: seq<Name>) {
    |columns| == |declared.fields| > 0
    && forall k :: 0 <= k < |columns| ==> StandsFor(t, declared.fields[k], columns[k])
  }

  lemma {:induction false} DeclaredIsCompound(t: Table, declared: seq<Declared>, i: nat, columns: seq<Name>)
    requires i < |declared| && Spells(t, declared[i], columns)
    ensures Compound(columns, declared[i].unique, IndexName(t.model, columns, declared[i].unique))
            in Compounds(t, declared)
  {
    var front, last := declared[..|declared| - 1], declared[|declared| - 1];
    if i < |front| {
      DeclaredIsCompound(t, front, i, columns);
    } else {
      var named := seq(|last.fields|, k requires 0 <= k < |last.fields| => ColumnOf(t.fields, last.fields[k]));
      forall k | 0 <= k < |columns| ensures named[k] == columns[k] {
        OnlyColumn(t, last.fields[k], columns[k]);
      }
      assert named == columns;
    }
  }

  /**
   * Once `up` has run, every index the table declares stands under the name of its columns,
   * and covers just those unless one of that name was there before.
   */
  lemma IndexesAreAsDeclared(dialect: Dialect, ts: seq<Table>, t: Table, db: Db, i: nat, columns: seq<Name>)
    requires WellFormed(ts, db) && t in ts && !t.disabled
    requires i < |t.indexes| && Spells(t, t.indexes[i], columns)
    ensures var applied := ApplyAll(dialect, db, DiffUp(ts, db));
            applied.Some? ==>
              && Key(t) in applied.value
              && var was, after := Standing(t, db), applied.value[Key(t)];
                 var name := IndexName(t.model, columns, t.indexes[i].unique);
                 if name in was.indexes then name in after.indexes && after.indexes[name] == was.indexes[name]
                 else HasIndex(after, name, columns)
  {
    UpLeaves(dialect, ts, db);
    DeclaredIsCompound(t, t.indexes, i, columns);
    var applied := ApplyAll(dialect, db, DiffUp(ts, db));
    var unique := t.indexes[i].unique;
    var name := IndexName(t.model, columns, unique);
    if applied.Some? {
      assert Result(dialect, ts, t, db) == Some(applied.value[Key(t)]);
      if name in Standing(t, db).indexes {
        ResultKeeps(dialect, ts, t, db);
      } else {
        ResultHasIndex(dialect, ts, t, db, Compound(columns, unique, name));
      }
    }
  }

  // ------------------------------------------------------------------ the id, and everything else

  /** A table that is created has its id as the key, and one that is there without gets a nullable string. */
  lemma EveryTableHasItsId(dialect: Dialect, ts: seq<Table>, t: Table, db: Db)
    requires WellFormed(ts, db) && t in ts && !t.disabled
    ensures var applied := ApplyAll(dialect, db, DiffUp(ts, db));
            applied.Some? ==>
              && Key(t) in applied.value
              && var after := applied.value[Key(t)];
                 && "id" in after.columns
                 && (Key(t) !in db ==> after.columns["id"].kind == PrimaryKey && !after.columns["id"].nullable)
                 && (Key(t) in db && "id" !in db[Key(t)].columns ==>
                      after.columns["id"].kind == VarChar && after.columns["id"].nullable)
  {
    UpLeaves(dialect, ts, db);
    var applied := ApplyAll(dialect, db, DiffUp(ts, db));
    if applied.Some? {
      assert Result(dialect, ts, t, db) == Some(applied.value[Key(t)]);
      assert Lower("id") == "id" && Wanted(t)[0] == "id";
      if Key(t) !in db {
        assert FreshSpecs(t)[0] == Spec("id", PrimaryKey, false, None);
        UpgradedHasLine(dialect, NO_TABLE, FreshSpecs(t), CompoundsOf(t), FreshSpecs(t)[0]);
      } else if "id" in db[Key(t)].columns {
        ResultKeeps(dialect, ts, t, db);
      } else {
        IdIsAdded(dialect, ts, t, db);
      }
    }
  }

  /** No field declares the id, so its line is that of a column nobody declares. */
  lemma IdIsUndeclared(ts: seq<Table>, t: Table)
    requires Known(ts, t) && DistinctLower(Wanted(t))
    ensures AddedSpec(ts, t.model, "id") == Spec("id", VarChar, true, None)
  {
    FieldInFacts(t.fields, "id");
    forall a | 0 <= a < |t.fields| ensures t.fields[a].Column() != "id" {
      assert Lower(Wanted(t)[0]) != Lower(Wanted(t)[a + 1]);
    }
  }

  lemma IdIsAbsent(ts: seq<Table>, t: Table, live: Live)
    requires "id" !in live.columns
    ensures AddedSpec(ts, t.model, "id") in AddedSpecs(ts, t.model, Absent(Wanted(t), live))
  {
    var absent := Absent(Wanted(t), live);
    assert Lower("id") == "id" && Wanted(t)[0] == "id";
    AbsentHas(Wanted(t), live, 0);
    var i :| 0 <= i < |absent| && absent[i] == "id";
    assert AddedSpecs(ts, t.model, absent)[i] == AddedSpec(ts, t.model, "id");
  }

  lemma IdIsAdded(dialect: Dialect, ts: seq<Table>, t: Table, db: Db)
    requires WellFormed(ts, db) && t in ts && !t.disabled
    requires Key(t) in db && "id" !in db[Key(t)].columns && Result(dialect, ts, t, db).Some?
    ensures HasLine(Result(dialect, ts, t, db).value, Spec("id", VarChar, true, None))
  {
    TablesKnown(ts);
    IdIsUndeclared(ts, t);
    IdIsAbsent(ts, t, db[Key(t)]);
    UpgradedHasLine(dialect, db[Key(t)], AddedSpecs(ts, t.model, Absent(Wanted(t), db[Key(t)])),
                    AbsentIndexes(CompoundsOf(t), db[Key(t)]), Spec("id", VarChar, true, None));
  }

  /** Whatever was in the database stays: other tables, and the columns and indexes of those it changes. */
  lemma UpTakesNothingAway(dialect: Dialect, ts: seq<Table>, db: Db, key: Name)
    requires WellFormed(ts, db) && key in db
    ensures var applied := ApplyAll(dialect, db, DiffUp(ts, db));
            applied.Some? ==>
              && key in applied.value && Keeps(db[key], applied.value[key])
              && ((forall t :: t in ts && !t.disabled ==> Key(t) != key) ==> applied.value[key] == db[key])
  {
    UpLeaves(dialect, ts, db);
    if t :| t in ts && !t.disabled && Key(t) == key {
      if ApplyAll(dialect, db, DiffUp(ts, db)).Some? {
        ResultKeeps(dialect, ts, t, db);
      }
    }
  }
}
