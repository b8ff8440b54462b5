/**
 * The generators themselves, as loops that push statements: `up` forwards, `down` backwards.
 */
module Migrations {
  import opened Options
  import opened Schema
  import opened SchemaProofs

  /** The whole schema, in order; what it undoes comes in the opposite order. */
  method MigrationFor(tables: seq<Table>) returns (up: seq<Statement>, down: seq<Undoing>)
    ensures up == FullUp(tables) && down == Undo(FullUp(tables))
  {
    var ordered := Sorted(Enabled(tables));
    up, down := [], [];
    for n := 0 to |ordered|
      invariant up == Creates(ordered[..n]) && down == Undo(Creates(ordered[..n]))
    {
      var table := ordered[n];
      var compound := CompoundsOf(table);
      var lines := [Spec("id", PrimaryKey, false, None)];
      for k := 0 to |table.fields|
        invariant lines == FreshSpecs(table)[..k + 1]
      {
        lines := lines + [SpecFor(table.model, table.fields[k], compound)];
        assert FreshSpecs(table)[..k + 2] == FreshSpecs(table)[..k + 1] + [FreshSpecs(table)[k + 1]];
      }
      assert lines == FreshSpecs(table);
      up := up + [Create(table.model, lines, compound)];
      down := [DropIfExists(table.model)] + down;
      assert up == Creates(ordered[..n + 1]) && up[..|up| - 1] == Creates(ordered[..n]);
    }
    assert ordered[..|ordered|] == ordered;
  }

  function MissingUp(all: seq<Table>, missing: seq<(Name, seq<Name>)>): seq<Statement> {
    seq(|missing|, i requires 0 <= i < |missing| =>
      AddColumns(missing[i].0, AddedSpecs(all, missing[i].0, missing[i].1)))
  }

  function OutstandingUp(absent: seq<(Name, Compound)>): seq<Statement> {
    seq(|absent|, i requires 0 <= i < |absent| => AddIndex(absent[i].0, absent[i].1))
  }

  /** Which columns each table lacks, as the first loop collects them. */
  method CollectMissing(tables: seq<Table>, wanted: seq<Table>, db: Db) returns (missing: seq<(Name, seq<Name>)>)
    ensures MissingUp(tables, missing) == ColumnsUp(tables, wanted, db)
  {
    missing := [];
    for n := 0 to |wanted|
      invariant MissingUp(tables, missing) == ColumnsUp(tables, wanted[..n], db)
    {
      assert wanted[..n + 1][..n] == wanted[..n];
      var table := wanted[n];
      if Lower(table.model) in db {
        var absent := Absent(Wanted(table), db[Lower(table.model)]);
        if absent != [] {
          ghost var before := missing;
          missing := missing + [(table.model, absent)];
          assert MissingUp(tables, missing)
                 == MissingUp(tables, before) + [AddColumns(table.model, AddedSpecs(tables, table.model, absent))];
        }
      }
    }
    assert wanted[..|wanted|] == wanted;
  }

  lemma OneMoreOutstanding(absent: seq<(Name, Compound)>, table: Name, c: Compound, some: seq<Compound>)
    ensures OutstandingUp(absent + [(table, c)]) == OutstandingUp(absent) + [AddIndex(table, c)]
    ensures AddIndexes(table, some + [c]) == AddIndexes(table, some) + [AddIndex(table, c)]
  {}

  /** Which compound indexes each live table lacks, as the second loop collects them. */
  method CollectAbsent(tables: seq<Table>, wanted: seq<Table>, db: Db) returns (absent: seq<(Name, Compound)>)
    ensures OutstandingUp(absent) == IndexesUp(tables, wanted, db)
  {
    absent := [];
    for n := 0 to |wanted|
      invariant OutstandingUp(absent) == IndexesUp(tables, wanted[..n], db)
    {
      assert wanted[..n + 1][..n] == wanted[..n];
      var table := wanted[n];
      if Lower(table.model) in db {
        var present := db[Lower(table.model)];
        var entries := CompoundFor(tables, table.model);
        ghost var before := absent;
        for k := 0 to |entries|
          invariant OutstandingUp(absent)
                    == OutstandingUp(before) + AddIndexes(table.model, AbsentIndexes(entries[..k], present))
        {
          assert entries[..k + 1][..k] == entries[..k];
          if entries[k].name !in present.indexes {
            OneMoreOutstanding(absent, table.model, entries[k], AbsentIndexes(entries[..k], present));
            absent := absent + [(table.model, entries[k])];
          }
        }
        assert entries[..|entries|] == entries;
      }
    }
    assert wanted[..|wanted|] == wanted;
  }

  /** The statements written so far: those of `up0`, then `more`, with their undoing. */
  ghost predicate Written(up0: seq<Statement>, more: seq<Statement>, up: seq<Statement>, down: seq<Undoing>) {
    up == up0 + more && down == Undo(up)
  }

  lemma WrittenOneMore(up0: seq<Statement>, more: seq<Statement>, up: seq<Statement>, down: seq<Undoing>, s: Statement)
    requires Written(up0, more, up, down)
    ensures Written(up0, more + [s], up + [s], [Inverse(s)] + down)
  {
    assert (up + [s])[..|up|] == up;
    assert up0 + more + [s] == up0 + (more + [s]);
  }

  lemma MissingSnoc(all: seq<Table>, missing: seq<(Name, seq<Name>)>, i: nat)
    requires i < |missing|
    ensures MissingUp(all, missing[..i + 1])
            == MissingUp(all, missing[..i]) + [AddColumns(missing[i].0, AddedSpecs(all, missing[i].0, missing[i].1))]
  {}

  lemma OutstandingSnoc(absent: seq<(Name, Compound)>, i: nat)
    requires i < |absent|
    ensures OutstandingUp(absent[..i + 1]) == OutstandingUp(absent[..i]) + [AddIndex(absent[i].0, absent[i].1)]
  {}

  /** Widen each table that lacks columns, and say how to narrow it again. */
  method WriteColumns(tables: seq<Table>, missing: seq<(Name, seq<Name>)>, up0: seq<Statement>, down0: seq<Undoing>)
    returns (up: seq<Statement>, down: seq<Undoing>)
    requires down0 == Undo(up0)
    ensures Written(up0, MissingUp(tables, missing), up, down)
  {
    up, down := up0, down0;
    for i := 0 to |missing|
      invariant Written(up0, MissingUp(tables, missing[..i]), up, down)
    {
      var adds := AddedSpecs(tables, missing[i].0, missing[i].1);
      WrittenOneMore(up0, MissingUp(tables, missing[..i]), up, down, AddColumns(missing[i].0, adds));
      MissingSnoc(tables, missing, i);
      up := up + [AddColumns(missing[i].0, adds)];
      down := [DropColumns(missing[i].0, NamesOf(adds))] + down;
    }
    assert missing[..|missing|] == missing;
  }

  method WriteIndexes(absent: seq<(Name, Compound)>, up0: seq<Statement>, down0: seq<Undoing>)
    returns (up: seq<Statement>, down: seq<Undoing>)
    requires down0 == Undo(up0)
    ensures Written(up0, OutstandingUp(absent), up, down)
  {
    up, down := up0, down0;
    for i := 0 to |absent|
      invariant Written(up0, OutstandingUp(absent[..i]), up, down)
    {
      WrittenOneMore(up0, OutstandingUp(absent[..i]), up, down, AddIndex(absent[i].0, absent[i].1));
      OutstandingSnoc(absent, i);
      up := up + [AddIndex(absent[i].0, absent[i].1)];
      down := [DropIndex(absent[i].0, absent[i].1.name)] + down;
    }
    assert absent[..|absent|] == absent;
  }

  /** Nothing at all when nothing is missing; otherwise the statements of the difference, and their undoing. */
  method DiffMigrationFor(tables: seq<Table>, db: Db) returns (diff: Option<(seq<Statement>, seq<Undoing>)>)
    ensures diff.None? <==> DiffUp(tables, db) == []
    ensures diff.Some? ==> diff.value == (DiffUp(tables, db), Undo(DiffUp(tables, db)))
  {
    var wanted := Enabled(tables);
    var missing := CollectMissing(tables, wanted, db);
    var absent := CollectAbsent(tables, wanted, db);
    var up, down := MigrationFor(CreatedTables(tables, db));
    DiffIsEmpty(tables, db);
    assert |MissingUp(tables, missing)| == |missing| && |OutstandingUp(absent)| == |absent|;
    if up == [] && missing == [] && absent == [] {
      return None;
    }
    up, down := WriteColumns(tables, missing, up, down);
    up, down := WriteIndexes(absent, up, down);
    diff := Some((up, down));
  }
}
