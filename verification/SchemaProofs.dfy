/**
 * What the difference migration achieves: it applies exactly when every index it creates
 * has its columns and the dialect accepts them and the columns it adds, afterwards nothing
 * is missing and the difference is empty, and its way down restores the database.
 */
module SchemaProofs {
  import opened Options
  import opened Schema

  // ------------------------------------------------------------------ well-formed declarations

  function LowerSet(columns: seq<Name>): set<Name> {
    set i | 0 <= i < |columns| :: Lower(columns[i])
  }

  predicate DistinctLower(columns: seq<Name>) {
    forall i, j :: 0 <= i < j < |columns| ==> Lower(columns[i]) != Lower(columns[j])
  }

  predicate DistinctModels(ts: seq<Table>) {
    forall i, j :: 0 <= i < j < |ts| ==> Lower(ts[i].model) != Lower(ts[j].model)
  }

  function SpecNames(specs: seq<Spec>): set<Name> {
    set i | 0 <= i < |specs| && specs[i].index.Some? :: specs[i].index.value.name
  }

  function IndexNames(compounds: seq<Compound>): set<Name> {
    set i | 0 <= i < |compounds| :: compounds[i].name
  }

  function OwnName(spec: Spec): set<Name> {
    if spec.index.Some? then {spec.index.value.name} else {}
  }

  lemma SpecNamesSnoc(specs: seq<Spec>)
    requires specs != []
    ensures SpecNames(specs) == SpecNames(specs[..|specs| - 1]) + OwnName(specs[|specs| - 1])
  {
    var front := specs[..|specs| - 1];
    forall n | n in SpecNames(specs) ensures n in SpecNames(front) + OwnName(specs[|specs| - 1]) {
      var i :| 0 <= i < |specs| && specs[i].index.Some? && n == specs[i].index.value.name;
      assert i < |front| ==> front[i] == specs[i];
    }
    forall n | n in SpecNames(front) ensures n in SpecNames(specs) {
      var i :| 0 <= i < |front| && front[i].index.Some? && n == front[i].index.value.name;
      assert specs[i] == front[i];
    }
  }

  lemma IndexNamesSnoc(compounds: seq<Compound>)
    requires compounds != []
    ensures IndexNames(compounds)
            == IndexNames(compounds[..|compounds| - 1]) + {compounds[|compounds| - 1].name}
  {
    var front := compounds[..|compounds| - 1];
    forall n | n in IndexNames(compounds) ensures n in IndexNames(front) + {compounds[|compounds| - 1].name} {
      var i :| 0 <= i < |compounds| && n == compounds[i].name;
      assert i < |front| ==> front[i] == compounds[i];
    }
    forall n | n in IndexNames(front) ensures n in IndexNames(compounds) {
      var i :| 0 <= i < |front| && n == front[i].name;
      assert compounds[i] == front[i];
    }
  }

  /** Columns to add: new to the table, distinct, and with index names of their own. */
  ghost predicate Fits(live: Live, specs: seq<Spec>) {
    && (forall i :: 0 <= i < |specs| ==> Lower(specs[i].name) !in live.columns)
    && (forall i, j :: 0 <= i < j < |specs| ==> Lower(specs[i].name) != Lower(specs[j].name))
    && (forall i :: 0 <= i < |specs| && specs[i].index.Some? ==> specs[i].index.value.name !in live.indexes)
    && (forall i, j :: 0 <= i < j < |specs| && specs[i].index.Some? && specs[j].index.Some? ==>
          specs[i].index.value.name != specs[j].index.value.name)
  }

  /** The dialect accepts this column on such a table, with the index of its own. */
  predicate Addable(dialect: Dialect, filled: bool, spec: Spec) {
    if MysqlLike(dialect) then spec.index.Some? ==> !spec.kind.TextColumn? else filled ==> spec.nullable
  }

  predicate AllAddable(dialect: Dialect, filled: bool, specs: seq<Spec>) {
    forall i :: 0 <= i < |specs| ==> Addable(dialect, filled, specs[i])
  }

  /** The table gained the columns as specified, their indexes, and nothing else. */
  ghost predicate Gained(a: Live, b: Live, specs: seq<Spec>) {
    && (forall i :: 0 <= i < |specs| ==>
         Lower(specs[i].name) in b.columns && b.columns[Lower(specs[i].name)] == specs[i])
    && b.columns.Keys == a.columns.Keys + ColumnSet(specs) && b.filled == a.filled
    && (forall c :: c in a.columns ==> b.columns[c] == a.columns[c])
    && b.indexes.Keys == a.indexes.Keys + SpecNames(specs)
  }

  lemma OneColumnGrows(dialect: Dialect, live: Live, spec: Spec)
    requires Lower(spec.name) !in live.columns && (spec.index.Some? ==> spec.index.value.name !in live.indexes)
    ensures var grown := GrowColumn(dialect, live, spec);
            && (grown.Some? <==> Addable(dialect, live.filled, spec))
            && (grown.Some? ==>
                 && grown.value.columns == live.columns[Lower(spec.name) := spec] && grown.value.filled == live.filled
                 && grown.value.indexes.Keys == live.indexes.Keys + OwnName(spec))
  {
    if spec.index.Some? {
      assert [spec.name][0] == spec.name;
    }
  }

  lemma AllAddableSnoc(dialect: Dialect, filled: bool, specs: seq<Spec>)
    requires specs != []
    ensures AllAddable(dialect, filled, specs)
       <==> AllAddable(dialect, filled, specs[..|specs| - 1]) && Addable(dialect, filled, specs[|specs| - 1])
  {
    var front := specs[..|specs| - 1];
    assert forall i :: 0 <= i < |front| ==> front[i] == specs[i];
  }

  /** Columns that fit are added exactly when the dialect accepts each. */
  lemma {:induction false} FittingColumnsGrow(dialect: Dialect, live: Live, specs: seq<Spec>)
    requires Fits(live, specs)
    ensures GrowColumns(dialect, live, specs).Some? <==> AllAddable(dialect, live.filled, specs)
    ensures GrowColumns(dialect, live, specs).Some? ==> Gained(live, GrowColumns(dialect, live, specs).value, specs)
  {
    if specs != [] {
      var front, last := specs[..|specs| - 1], specs[|specs| - 1];
      FittingColumnsGrow(dialect, live, front);
      AllAddableSnoc(dialect, live.filled, specs);
      var mid := GrowColumns(dialect, live, front);
      if mid.Some? {
        LastStillFits(live, mid.value, specs);
        OneColumnGrows(dialect, mid.value, last);
        if GrowColumn(dialect, mid.value, last).Some? {
          GainsOneMore(live, mid.value, GrowColumn(dialect, mid.value, last).value, specs);
        }
      }
    }
  }

  lemma LastStillFits(live: Live, mid: Live, specs: seq<Spec>)
    requires specs != [] && Fits(live, specs) && Gained(live, mid, specs[..|specs| - 1])
    ensures var last := specs[|specs| - 1];
            Lower(last.name) !in mid.columns && (last.index.Some? ==> last.index.value.name !in mid.indexes)
  {
    var front := specs[..|specs| - 1];
    assert forall i :: 0 <= i < |front| ==> front[i] == specs[i];
  }

  lemma GainsOneMore(a: Live, b: Live, c: Live, specs: seq<Spec>)
    requires specs != [] && Gained(a, b, specs[..|specs| - 1])
    requires var last := specs[|specs| - 1];
             && Lower(last.name) !in b.columns && c.columns == b.columns[Lower(last.name) := last]
             && c.filled == b.filled
             && c.indexes.Keys == b.indexes.Keys + OwnName(last)
    ensures Gained(a, c, specs)
  {
    var front := specs[..|specs| - 1];
    ColumnSetSnoc(specs);
    SpecNamesSnoc(specs);
    forall i | 0 <= i < |specs|
      ensures Lower(specs[i].name) in c.columns && c.columns[Lower(specs[i].name)] == specs[i]
    {
      assert i < |front| ==> front[i] == specs[i];
    }
  }

  // ------------------------------------------------------------------ indexes on one table

  ghost predicate NamesFree(live: Live, compounds: seq<Compound>) {
    && (forall i :: 0 <= i < |compounds| ==> compounds[i].name !in live.indexes)
    && DistinctNames(compounds)
  }

  ghost predicate Covered(columns: set<Name>, c: Compound) {
    forall k :: 0 <= k < |c.columns| ==> Lower(c.columns[k]) in columns
  }

  ghost predicate AllCovered(columns: set<Name>, compounds: seq<Compound>) {
    forall i :: 0 <= i < |compounds| ==> Covered(columns, compounds[i])
  }

  /** The columns that the dialect lets an index cover. */
  function Keyable(dialect: Dialect, live: Live): set<Name> {
    set c | c in live.columns && Indexable(dialect, live, c)
  }

  lemma OneIndexGrows(dialect: Dialect, live: Live, c: Compound)
    requires c.name !in live.indexes
    ensures var grown := GrowIndex(dialect, live, c.name, c.columns);
            && (grown.Some? <==> Covered(Keyable(dialect, live), c))
            && (grown.Some? ==>
                 && grown.value.columns == live.columns
                 && grown.value.indexes.Keys == live.indexes.Keys + {c.name})
  {}

  lemma OneMoreIndexGrows(dialect: Dialect, live: Live, mid: Live, c: Compound)
    requires c.name !in mid.indexes && mid.columns == live.columns
    ensures var grown := GrowIndex(dialect, mid, c.name, c.columns);
            && (grown.Some? <==> Covered(Keyable(dialect, live), c))
            && (grown.Some? ==>
                 && grown.value.columns == live.columns
                 && grown.value.indexes.Keys == mid.indexes.Keys + {c.name})
  {
    assert Keyable(dialect, mid) == Keyable(dialect, live);
    OneIndexGrows(dialect, mid, c);
  }

  /** Indexes with free names are created exactly when every column they cover exists and can be indexed. */
  lemma {:induction false} IndexesNeedColumns(dialect: Dialect, live: Live, compounds: seq<Compound>)
    requires NamesFree(live, compounds)
    ensures var grown := GrowIndexes(dialect, live, compounds);
            && (grown.Some? <==> AllCovered(Keyable(dialect, live), compounds))
            && (grown.Some? ==>
                 && grown.value.columns == live.columns
                 && grown.value.indexes.Keys == live.indexes.Keys + IndexNames(compounds))
  {
    if compounds != [] {
      var front, last := compounds[..|compounds| - 1], compounds[|compounds| - 1];
      assert forall i :: 0 <= i < |front| ==> front[i] == compounds[i];
      IndexesNeedColumns(dialect, live, front);
      IndexNamesSnoc(compounds);
      AllCoveredSnoc(Keyable(dialect, live), compounds);
      var mid := GrowIndexes(dialect, live, front);
      if mid.Some? {
        assert last.name !in IndexNames(front);
        OneMoreIndexGrows(dialect, live, mid.value, last);
      }
    }
  }

  lemma AllCoveredSnoc(columns: set<Name>, compounds: seq<Compound>)
    requires compounds != []
    ensures AllCovered(columns, compounds)
       <==> AllCovered(columns, compounds[..|compounds| - 1]) && Covered(columns, compounds[|compounds| - 1])
  {
    var front := compounds[..|compounds| - 1];
    assert forall i :: 0 <= i < |front| ==> front[i] == compounds[i];
  }

  // ------------------------------------------------------------------ one table

  /** Distinct columns, and distinct names for all the indexes a table declares. */
  ghost predicate TableOk(t: Table) {
    && DistinctLower(Wanted(t))
    && (forall a, b :: 0 <= a < b < |t.fields| && t.fields[a].Indexed() && t.fields[b].Indexed() ==>
          SingleName(t.model, t.fields[a]) != SingleName(t.model, t.fields[b]))
    && (forall a, i :: 0 <= a < |t.fields| && 0 <= i < |CompoundsOf(t)| && t.fields[a].Indexed() ==>
          SingleName(t.model, t.fields[a]) != CompoundsOf(t)[i].name)
    && DistinctNames(CompoundsOf(t))
  }

  /** No index the live table has already bears the name of one that a missing column brings. */
  ghost predicate Room(t: Table, live: Live) {
    forall a :: 0 <= a < |t.fields| && t.fields[a].Indexed() && Lower(t.fields[a].Column()) !in live.columns ==>
      SingleName(t.model, t.fields[a]) !in live.indexes
  }

  /** Everything the table wants is there. */
  ghost predicate Done(t: Table, live: Live) {
    LowerSet(Wanted(t)) <= live.columns.Keys && IndexNames(CompoundsOf(t)) <= live.indexes.Keys
  }

  lemma {:induction false} AbsentMembers(columns: seq<Name>, live: Live)
    ensures forall i :: 0 <= i < |Absent(columns, live)| ==>
              Absent(columns, live)[i] in columns && Lower(Absent(columns, live)[i]) !in live.columns
  {
    if columns != [] {
      AbsentMembers(columns[..|columns| - 1], live);
    }
  }

  lemma {:induction false} AbsentDistinct(columns: seq<Name>, live: Live)
    requires DistinctLower(columns)
    ensures DistinctLower(Absent(columns, live))
  {
    if columns != [] {
      var front, last := columns[..|columns| - 1], columns[|columns| - 1];
      assert forall i :: 0 <= i < |front| ==> front[i] == columns[i];
      AbsentDistinct(front, live);
      AbsentMembers(front, live);
    }
  }

  lemma {:induction false} AbsentCovers(columns: seq<Name>, live: Live)
    ensures live.columns.Keys + LowerSet(Absent(columns, live)) == live.columns.Keys + LowerSet(columns)
    ensures Absent(columns, live) == [] <==> LowerSet(columns) <= live.columns.Keys
  {
    if columns != [] {
      var front, last := columns[..|columns| - 1], columns[|columns| - 1];
      AbsentCovers(front, live);
      LowerSetSnoc(columns);
      if Lower(last) !in live.columns {
        LowerSetSnoc(Absent(columns, live));
        assert Absent(columns, live)[..|Absent(columns, live)| - 1] == Absent(front, live);
      }
    }
  }

  lemma LowerSetSnoc(columns: seq<Name>)
    requires columns != []
    ensures LowerSet(columns) == LowerSet(columns[..|columns| - 1]) + {Lower(columns[|columns| - 1])}
  {
    var front := columns[..|columns| - 1];
    forall c | c in LowerSet(columns) ensures c in LowerSet(front) + {Lower(columns[|columns| - 1])} {
      var i :| 0 <= i < |columns| && c == Lower(columns[i]);
      assert i < |front| ==> front[i] == columns[i];
    }
    forall c | c in LowerSet(front) ensures c in LowerSet(columns) {
      var i :| 0 <= i < |front| && c == Lower(front[i]);
      assert columns[i] == front[i];
    }
  }

  lemma {:induction false} AbsentIndexMembers(compounds: seq<Compound>, live: Live)
    ensures forall c :: c in AbsentIndexes(compounds, live) <==> c in compounds && c.name !in live.indexes
  {
    if compounds != [] {
      var front, last := compounds[..|compounds| - 1], compounds[|compounds| - 1];
      AbsentIndexMembers(front, live);
      assert compounds == front + [last];
    }
  }

  ghost predicate DistinctNames(compounds: seq<Compound>) {
    forall i, j :: 0 <= i < j < |compounds| ==> compounds[i].name != compounds[j].name
  }

  lemma {:induction false} AbsentIndexesDistinct(compounds: seq<Compound>, live: Live)
    requires DistinctNames(compounds)
    ensures DistinctNames(AbsentIndexes(compounds, live))
  {
    if compounds != [] {
      var front, last := compounds[..|compounds| - 1], compounds[|compounds| - 1];
      assert forall i :: 0 <= i < |front| ==> front[i] == compounds[i];
      AbsentIndexesDistinct(front, live);
      AbsentIndexMembers(front, live);
      var some := AbsentIndexes(front, live);
      assert forall c :: c in front ==> c.name != last.name;
      assert forall i :: 0 <= i < |some| ==> some[i] in front;
      assert DistinctNames(some + [last]);
    }
  }

  lemma {:induction false} AbsentIndexesCover(compounds: seq<Compound>, live: Live)
    ensures live.indexes.Keys + IndexNames(AbsentIndexes(compounds, live)) == live.indexes.Keys + IndexNames(compounds)
    ensures AbsentIndexes(compounds, live) == [] <==> IndexNames(compounds) <= live.indexes.Keys
  {
    if compounds != [] {
      var front, last := compounds[..|compounds| - 1], compounds[|compounds| - 1];
      AbsentIndexesCover(front, live);
      IndexNamesSnoc(compounds);
      var out := AbsentIndexes(compounds, live);
      if out != AbsentIndexes(front, live) {
        IndexNamesSnoc(out);
        assert out[..|out| - 1] == AbsentIndexes(front, live);
      }
    }
  }

  lemma {:induction false} FieldInFacts(fields: seq<Field>, column: Name)
    ensures FieldIn(fields, column).Some? ==>
              FieldIn(fields, column).value in fields && FieldIn(fields, column).value.Column() == column
    ensures FieldIn(fields, column).None? ==> forall i :: 0 <= i < |fields| ==> fields[i].Column() != column
  {
    if fields != [] {
      FieldInFacts(fields[1..], column);
    }
  }

  /** The lookups by name find the table itself. */
  ghost predicate Known(all: seq<Table>, t: Table) {
    Lookup(all, t.model) == Some(t) && forall c :: FieldFor(all, t.model, c) == FieldIn(t.fields, c)
  }

  lemma {:induction false} LookupFinds(all: seq<Table>, i: nat)
    requires DistinctModels(all) && i < |all|
    ensures Known(all, all[i])
  {
    if i > 0 {
      LookupFinds(all[1..], i - 1);
    } else {
      forall c ensures FieldFor(all[1..], all[0].model, c) == None {
        NoFieldElsewhere(all[1..], all[0].model, c);
      }
    }
  }

  lemma {:induction false} NoFieldElsewhere(all: seq<Table>, model: Name, column: Name)
    requires forall i :: 0 <= i < |all| ==> all[i].model != model
    ensures FieldFor(all, model, column) == None
  {
    if all != [] {
      NoFieldElsewhere(all[1..], model, column);
    }
  }

  /** A spec to be added with an index comes from an indexed field of that column. */
  lemma AddedFrom(all: seq<Table>, t: Table, column: Name) returns (a: nat)
    requires Known(all, t) && AddedSpec(all, t.model, column).index.Some?
    ensures a < |t.fields| && t.fields[a].Column() == column && t.fields[a].Indexed()
    ensures AddedSpec(all, t.model, column).index.value.name == SingleName(t.model, t.fields[a])
  {
    FieldInFacts(t.fields, column);
    var f := FieldIn(t.fields, column).value;
    a :| 0 <= a < |t.fields| && t.fields[a] == f;
  }

  lemma AddedNames(all: seq<Table>, t: Table, columns: seq<Name>)
    requires Known(all, t)
    ensures NamesOf(AddedSpecs(all, t.model, columns)) == columns
    ensures ColumnSet(AddedSpecs(all, t.model, columns)) == LowerSet(columns)
  {
    var specs := AddedSpecs(all, t.model, columns);
    forall i | 0 <= i < |specs| ensures specs[i].name == columns[i] {
      FieldInFacts(t.fields, columns[i]);
    }
    assert forall i :: 0 <= i < |specs| ==> NamesOf(specs)[i] == specs[i].name;
  }

  lemma AddedIndexNames(all: seq<Table>, t: Table, c: Name, d: Name)
    requires Known(all, t) && TableOk(t) && c != d
    requires AddedSpec(all, t.model, c).index.Some? && AddedSpec(all, t.model, d).index.Some?
    ensures AddedSpec(all, t.model, c).index.value.name != AddedSpec(all, t.model, d).index.value.name
  {
    var a := AddedFrom(all, t, c);
    var b := AddedFrom(all, t, d);
    assert a < b || b < a;
  }

  lemma AddedFits(all: seq<Table>, t: Table, live: Live)
    requires Known(all, t) && TableOk(t) && Room(t, live)
    ensures Fits(live, AddedSpecs(all, t.model, Absent(Wanted(t), live)))
  {
    var columns := Absent(Wanted(t), live);
    var specs := AddedSpecs(all, t.model, columns);
    AbsentMembers(Wanted(t), live);
    AbsentDistinct(Wanted(t), live);
    AddedNames(all, t, columns);
    assert forall i :: 0 <= i < |specs| ==> NamesOf(specs)[i] == specs[i].name;
    forall i | 0 <= i < |specs| && specs[i].index.Some? ensures specs[i].index.value.name !in live.indexes {
      var a := AddedFrom(all, t, columns[i]);
    }
    forall i, j | 0 <= i < j < |specs| && specs[i].index.Some? && specs[j].index.Some?
      ensures specs[i].index.value.name != specs[j].index.value.name
    {
      AddedIndexNames(all, t, columns[i], columns[j]);
    }
  }

  lemma FreshNames(t: Table)
    ensures NamesOf(FreshSpecs(t)) == Wanted(t) && ColumnSet(FreshSpecs(t)) == LowerSet(Wanted(t))
  {
    var specs, columns := FreshSpecs(t), Wanted(t);
    assert forall i :: 0 <= i < |specs| ==> specs[i].name == columns[i] && NamesOf(specs)[i] == specs[i].name;
  }

  lemma FreshSpecAt(t: Table, i: nat)
    requires i < |FreshSpecs(t)| && FreshSpecs(t)[i].index.Some?
    ensures i > 0 && t.fields[i - 1].Indexed()
            && FreshSpecs(t)[i].index.value.name == SingleName(t.model, t.fields[i - 1])
  {}

  lemma FreshFits(t: Table)
    requires TableOk(t)
    ensures Fits(NO_TABLE, FreshSpecs(t)) && ColumnSet(FreshSpecs(t)) == LowerSet(Wanted(t))
  {
    var specs := FreshSpecs(t);
    FreshNames(t);
    assert forall i :: 0 <= i < |specs| ==> specs[i].name == NamesOf(specs)[i];
    forall i, j | 0 <= i < j < |specs| && specs[i].index.Some? && specs[j].index.Some?
      ensures specs[i].index.value.name != specs[j].index.value.name
    {
      FreshSpecAt(t, i);
      FreshSpecAt(t, j);
    }
  }

  // ------------------------------------------------------------------ a table brought up to date

  function FieldSpec(t: Table, a: int): Spec
    requires 0 <= a < |t.fields|
  {
    SpecFor(t.model, t.fields[a], CompoundsOf(t))
  }

  predicate Lacks(t: Table, live: Live, a: int) {
    0 <= a < |t.fields| && Lower(t.fields[a].Column()) !in live.columns
  }

  predicate Awaited(t: Table, live: Live, c: Compound) {
    c in CompoundsOf(t) && c.name !in live.indexes
  }

  /** The indexes still to be created cover only columns that the table has or wants. */
  ghost predicate IndexColumnsExist(t: Table, live: Live) {
    forall c :: Awaited(t, live, c) ==> Covered(live.columns.Keys + LowerSet(Wanted(t)), c)
  }

  /** The column is a text column, as it stands or as it is going to be added. */
  ghost predicate TextAt(t: Table, live: Live, column: Name) {
    if column in live.columns then live.columns[column].kind.TextColumn?
    else exists a :: Lacks(t, live, a) && Lower(t.fields[a].Column()) == column && FieldSpec(t, a).kind.TextColumn?
  }

  ghost predicate CoversText(t: Table, live: Live, c: Compound) {
    exists k :: 0 <= k < |c.columns| && TextAt(t, live, Lower(c.columns[k]))
  }

  /** An index still to be created is over a text column: the column's own index, or a compound one. */
  ghost predicate KeysText(t: Table, live: Live) {
    || (exists a :: Lacks(t, live, a) && t.fields[a].Indexed() && FieldSpec(t, a).kind.TextColumn?)
    || (exists c :: Awaited(t, live, c) && CoversText(t, live, c))
  }

  /** A required column is still to be added, and rows are there that have nothing to put in it. */
  ghost predicate DemandsOfRows(t: Table, live: Live) {
    live.filled && exists a :: Lacks(t, live, a) && !t.fields[a].optional
  }

  /** What `up` does to a table goes through. */
  ghost predicate Accepted(dialect: Dialect, t: Table, live: Live) {
    IndexColumnsExist(t, live) && if MysqlLike(dialect) then !KeysText(t, live) else !DemandsOfRows(t, live)
  }

  /** A column line of no consequence for any of that. */
  predicate Harmless(live: Live, spec: Spec) {
    spec.index.None? && !spec.kind.TextColumn? && (live.filled ==> spec.nullable)
  }

  ghost predicate Foreseen(t: Table, live: Live, spec: Spec) {
    Harmless(live, spec) || exists a :: Lacks(t, live, a) && spec == FieldSpec(t, a)
  }

  /** The lines add just what the table lacks, each as its field declares it. */
  ghost predicate Realises(t: Table, live: Live, specs: seq<Spec>) {
    && live.columns.Keys + ColumnSet(specs) == live.columns.Keys + LowerSet(Wanted(t))
    && (forall i :: 0 <= i < |specs| ==> Foreseen(t, live, specs[i]))
    && (forall a :: Lacks(t, live, a) ==> FieldSpec(t, a) in specs)
  }

  lemma AddableAsDeclared(dialect: Dialect, t: Table, live: Live, specs: seq<Spec>)
    requires Realises(t, live, specs)
    ensures AllAddable(dialect, live.filled, specs) <==> FieldsAddable(dialect, t, live)
  {
    if AllAddable(dialect, live.filled, specs) {
      forall a | Lacks(t, live, a) ensures Addable(dialect, live.filled, FieldSpec(t, a)) {
        var i :| 0 <= i < |specs| && specs[i] == FieldSpec(t, a);
      }
    } else {
      var i :| 0 <= i < |specs| && !Addable(dialect, live.filled, specs[i]);
      assert Foreseen(t, live, specs[i]);
    }
  }

  /** The line behind an added column, and the field behind the line. */
  lemma LineOf(t: Table, live: Live, grown: Live, specs: seq<Spec>, column: Name) returns (i: nat)
    requires Realises(t, live, specs) && Gained(live, grown, specs)
    requires column in grown.columns && column !in live.columns
    ensures i < |specs| && Lower(specs[i].name) == column && grown.columns[column] == specs[i]
    ensures Foreseen(t, live, specs[i])
  {
    i :| 0 <= i < |specs| && Lower(specs[i].name) == column;
  }

  lemma LineFor(t: Table, live: Live, grown: Live, specs: seq<Spec>, a: nat)
    requires Realises(t, live, specs) && Gained(live, grown, specs) && Lacks(t, live, a)
    ensures var column := Lower(t.fields[a].Column());
            column in grown.columns && grown.columns[column] == FieldSpec(t, a)
  {
    var j :| 0 <= j < |specs| && specs[j] == FieldSpec(t, a);
  }

  /** An added column is text exactly when its field says so. */
  lemma TextAsDeclared(t: Table, live: Live, grown: Live, specs: seq<Spec>, column: Name)
    requires Realises(t, live, specs) && Gained(live, grown, specs) && column in grown.columns
    ensures grown.columns[column].kind.TextColumn? <==> TextAt(t, live, column)
  {
    if column !in live.columns {
      var i := LineOf(t, live, grown, specs, column);
      if a: int :| Lacks(t, live, a) && Lower(t.fields[a].Column()) == column && FieldSpec(t, a).kind.TextColumn? {
        LineFor(t, live, grown, specs, a);
      }
    }
  }

  lemma KeyableAsDeclared(dialect: Dialect, t: Table, live: Live, grown: Live, specs: seq<Spec>, c: Compound)
    requires Realises(t, live, specs) && Gained(live, grown, specs)
    ensures Covered(Keyable(dialect, grown), c)
       <==> Covered(live.columns.Keys + LowerSet(Wanted(t)), c) && (MysqlLike(dialect) ==> !CoversText(t, live, c))
  {
    forall k | 0 <= k < |c.columns|
      ensures Lower(c.columns[k]) in Keyable(dialect, grown)
              <==> && Lower(c.columns[k]) in live.columns.Keys + LowerSet(Wanted(t))
                   && (MysqlLike(dialect) ==> !TextAt(t, live, Lower(c.columns[k])))
    {
      if Lower(c.columns[k]) in grown.columns {
        TextAsDeclared(t, live, grown, specs, Lower(c.columns[k]));
      }
    }
  }

  /** The indexes still to be created, once the columns were. */
  ghost predicate Outstanding(t: Table, live: Live, out: seq<Compound>) {
    forall c :: c in out <==> Awaited(t, live, c)
  }

  lemma AllKeyableAsDeclared(dialect: Dialect, t: Table, live: Live, grown: Live, specs: seq<Spec>, out: seq<Compound>)
    requires Realises(t, live, specs) && Gained(live, grown, specs) && Outstanding(t, live, out)
    ensures AllCovered(Keyable(dialect, grown), out)
       <==> && IndexColumnsExist(t, live)
            && (MysqlLike(dialect) ==> NoTextAwaited(t, live))
  {
    forall c ensures Covered(Keyable(dialect, grown), c)
                     <==> && Covered(live.columns.Keys + LowerSet(Wanted(t)), c)
                          && (MysqlLike(dialect) ==> !CoversText(t, live, c))
    {
      KeyableAsDeclared(dialect, t, live, grown, specs, c);
    }
    if AllCovered(Keyable(dialect, grown), out) {
      forall c | Awaited(t, live, c) ensures Covered(Keyable(dialect, grown), c) {
        var i :| 0 <= i < |out| && out[i] == c;
      }
    } else {
      var i :| 0 <= i < |out| && !Covered(Keyable(dialect, grown), out[i]);
      assert Awaited(t, live, out[i]);
    }
  }

  /** Columns first, then indexes. */
  function Upgraded(dialect: Dialect, live: Live, specs: seq<Spec>, out: seq<Compound>): Option<Live> {
    var grown := GrowColumns(dialect, live, specs);
    if grown.None? then None else GrowIndexes(dialect, grown.value, out)
  }

  lemma NamesStillFree(t: Table, live: Live, grown: Live, specs: seq<Spec>, out: seq<Compound>)
    requires Gained(live, grown, specs) && Outstanding(t, live, out)
    requires DistinctNames(out) && forall c :: c in out ==> c.name !in SpecNames(specs)
    ensures NamesFree(grown, out)
  {
    forall i | 0 <= i < |out| ensures out[i].name !in grown.indexes {
      assert out[i] in out && Awaited(t, live, out[i]);
    }
  }

  ghost predicate FieldsAddable(dialect: Dialect, t: Table, live: Live) {
    forall a :: Lacks(t, live, a) ==> Addable(dialect, live.filled, FieldSpec(t, a))
  }

  ghost predicate NoTextAwaited(t: Table, live: Live) {
    forall c :: Awaited(t, live, c) ==> !CoversText(t, live, c)
  }

  lemma AcceptedInParts(dialect: Dialect, t: Table, live: Live)
    ensures Accepted(dialect, t, live)
       <==> && FieldsAddable(dialect, t, live) && IndexColumnsExist(t, live)
            && (MysqlLike(dialect) ==> NoTextAwaited(t, live))
  {
    if MysqlLike(dialect) && !FieldsAddable(dialect, t, live) {
      var a :| Lacks(t, live, a) && !Addable(dialect, live.filled, FieldSpec(t, a));
      assert Lacks(t, live, a) && t.fields[a].Indexed() && FieldSpec(t, a).kind.TextColumn?;
    }
  }

  /** One table is brought up to date exactly when the dialect accepts it; and then it is done. */
  lemma TableIsUpgraded(dialect: Dialect, t: Table, live: Live, specs: seq<Spec>, out: seq<Compound>)
    requires Fits(live, specs) && Realises(t, live, specs) && Outstanding(t, live, out)
    requires DistinctNames(out) && forall c :: c in out ==> c.name !in SpecNames(specs)
    requires live.indexes.Keys + IndexNames(out) == live.indexes.Keys + IndexNames(CompoundsOf(t))
    ensures var after := Upgraded(dialect, live, specs, out);
            (after.Some? <==> Accepted(dialect, t, live)) && (after.Some? ==> Done(t, after.value))
  {
    FittingColumnsGrow(dialect, live, specs);
    AddableAsDeclared(dialect, t, live, specs);
    AcceptedInParts(dialect, t, live);
    var grown := GrowColumns(dialect, live, specs);
    if grown.Some? {
      NamesStillFree(t, live, grown.value, specs, out);
      IndexesNeedColumns(dialect, grown.value, out);
      AllKeyableAsDeclared(dialect, t, live, grown.value, specs, out);
    }
  }

  lemma FreshRealises(t: Table)
    requires DistinctLower(Wanted(t))
    ensures Realises(t, NO_TABLE, FreshSpecs(t))
  {
    var specs := FreshSpecs(t);
    FreshNames(t);
    forall i | 0 <= i < |specs| ensures Foreseen(t, NO_TABLE, specs[i]) {
      if i > 0 {
        assert Lacks(t, NO_TABLE, i - 1) && specs[i] == FieldSpec(t, i - 1);
      }
    }
    forall a | Lacks(t, NO_TABLE, a) ensures FieldSpec(t, a) in specs {
      assert specs[a + 1] == FieldSpec(t, a);
    }
  }

  lemma FreshTable(dialect: Dialect, t: Table)
    requires TableOk(t)
    ensures var after := FreshLive(dialect, FreshSpecs(t), CompoundsOf(t));
            (after.Some? <==> Accepted(dialect, t, NO_TABLE)) && (after.Some? ==> Done(t, after.value))
  {
    FreshFits(t);
    FreshRealises(t);
    forall c | c in CompoundsOf(t) ensures c.name !in SpecNames(FreshSpecs(t)) {
      var i :| 0 <= i < |CompoundsOf(t)| && CompoundsOf(t)[i] == c;
      FreshNamesApart(t, i);
    }
    TableIsUpgraded(dialect, t, NO_TABLE, FreshSpecs(t), CompoundsOf(t));
  }

  lemma FreshNamesApart(t: Table, i: nat)
    requires TableOk(t) && i < |CompoundsOf(t)|
    ensures CompoundsOf(t)[i].name !in SpecNames(FreshSpecs(t))
  {
    var specs := FreshSpecs(t);
    forall k | 0 <= k < |specs| && specs[k].index.Some? ensures specs[k].index.value.name != CompoundsOf(t)[i].name {
      assert specs[k].index.value.name == SingleName(t.model, t.fields[k - 1]);
    }
  }

  lemma AddedNamesApart(all: seq<Table>, t: Table, columns: seq<Name>, c: Compound)
    requires Known(all, t) && TableOk(t) && c in CompoundsOf(t)
    ensures c.name !in SpecNames(AddedSpecs(all, t.model, columns))
  {
    var specs := AddedSpecs(all, t.model, columns);
    forall k | 0 <= k < |specs| && specs[k].index.Some? ensures specs[k].index.value.name != c.name {
      var a := AddedFrom(all, t, columns[k]);
      var i :| 0 <= i < |CompoundsOf(t)| && CompoundsOf(t)[i] == c;
    }
  }

  /** A live table with the columns it lacks. */
  function Grown(dialect: Dialect, all: seq<Table>, t: Table, live: Live): Option<Live> {
    GrowColumns(dialect, live, AddedSpecs(all, t.model, Absent(Wanted(t), live)))
  }

  /** The line for a wanted column is its field's; the id, which no field declares, becomes a nullable string. */
  lemma WantedSpec(all: seq<Table>, t: Table, live: Live, column: Name)
    requires Known(all, t) && DistinctLower(Wanted(t)) && column in Wanted(t) && Lower(column) !in live.columns
    ensures Foreseen(t, live, AddedSpec(all, t.model, column))
  {
    var i :| 0 <= i < |Wanted(t)| && Wanted(t)[i] == column;
    if i > 0 {
      DeclaredSpec(all, t, i - 1);
      assert Lacks(t, live, i - 1) && AddedSpec(all, t.model, column) == FieldSpec(t, i - 1);
    } else {
      FieldInFacts(t.fields, column);
      forall a | 0 <= a < |t.fields| ensures t.fields[a].Column() != column {
        assert Lower(Wanted(t)[0]) != Lower(Wanted(t)[a + 1]);
      }
    }
  }

  lemma AddedIsForeseen(all: seq<Table>, t: Table, live: Live, i: nat)
    requires Known(all, t) && DistinctLower(Wanted(t)) && i < |Absent(Wanted(t), live)|
    ensures Foreseen(t, live, AddedSpec(all, t.model, Absent(Wanted(t), live)[i]))
  {
    AbsentMembers(Wanted(t), live);
    WantedSpec(all, t, live, Absent(Wanted(t), live)[i]);
  }

  lemma LackingIsAdded(all: seq<Table>, t: Table, live: Live, a: nat)
    requires Known(all, t) && TableOk(t) && Lacks(t, live, a)
    ensures FieldSpec(t, a) in AddedSpecs(all, t.model, Absent(Wanted(t), live))
  {
    var i := AddedSpecIsFresh(all, t, live, a);
    assert AddedSpecs(all, t.model, Absent(Wanted(t), live))[i] == FieldSpec(t, a);
  }

  lemma AddedRealises(all: seq<Table>, t: Table, live: Live)
    requires Known(all, t) && TableOk(t)
    ensures Realises(t, live, AddedSpecs(all, t.model, Absent(Wanted(t), live)))
  {
    var columns := Absent(Wanted(t), live);
    var specs := AddedSpecs(all, t.model, columns);
    AddedNames(all, t, columns);
    AbsentCovers(Wanted(t), live);
    forall i | 0 <= i < |specs| ensures Foreseen(t, live, specs[i]) {
      AddedIsForeseen(all, t, live, i);
    }
    forall a | Lacks(t, live, a) ensures FieldSpec(t, a) in specs {
      LackingIsAdded(all, t, live, a);
    }
  }

  /** A live table with the columns and the indexes it lacks. */
  function UpgradedOf(dialect: Dialect, all: seq<Table>, t: Table, live: Live): Option<Live> {
    Upgraded(dialect, live, AddedSpecs(all, t.model, Absent(Wanted(t), live)), AbsentIndexes(CompoundsOf(t), live))
  }

  /** A live table is widened and indexed exactly when the dialect accepts it; and then it is done. */
  lemma TableIsIndexed(dialect: Dialect, all: seq<Table>, t: Table, live: Live)
    requires Known(all, t) && TableOk(t) && Room(t, live)
    ensures var after := UpgradedOf(dialect, all, t, live);
            (after.Some? <==> Accepted(dialect, t, live)) && (after.Some? ==> Done(t, after.value))
  {
    var specs, out := AddedSpecs(all, t.model, Absent(Wanted(t), live)), AbsentIndexes(CompoundsOf(t), live);
    AddedFits(all, t, live);
    AddedRealises(all, t, live);
    AbsentIndexMembers(CompoundsOf(t), live);
    AbsentIndexesDistinct(CompoundsOf(t), live);
    AbsentIndexesCover(CompoundsOf(t), live);
    forall c | c in out ensures c.name !in SpecNames(specs) {
      AddedNamesApart(all, t, Absent(Wanted(t), live), c);
    }
    TableIsUpgraded(dialect, t, live, specs, out);
  }

  lemma DeclaredSpec(all: seq<Table>, t: Table, a: nat)
    requires Known(all, t) && DistinctLower(Wanted(t)) && a < |t.fields|
    ensures AddedSpec(all, t.model, t.fields[a].Column()) == FreshSpecs(t)[a + 1]
  {
    OnlyField(t, a);
    assert FieldFor(all, t.model, t.fields[a].Column()) == FieldIn(t.fields, t.fields[a].Column());
    assert CompoundFor(all, t.model) == CompoundsOf(t);
  }

  lemma AddedSpecIsFresh(all: seq<Table>, t: Table, live: Live, a: nat) returns (i: nat)
    requires Known(all, t) && TableOk(t) && a < |t.fields| && Lower(t.fields[a].Column()) !in live.columns
    ensures i < |Absent(Wanted(t), live)| && Absent(Wanted(t), live)[i] == t.fields[a].Column()
    ensures AddedSpec(all, t.model, Absent(Wanted(t), live)[i]) == FreshSpecs(t)[a + 1]
  {
    assert Wanted(t)[a + 1] == t.fields[a].Column();
    AbsentHas(Wanted(t), live, a + 1);
    i :| 0 <= i < |Absent(Wanted(t), live)| && Absent(Wanted(t), live)[i] == t.fields[a].Column();
    DeclaredSpec(all, t, a);
  }

  /** Some index covers the column: its own, or a compound one of its table. */
  ghost predicate InAnIndex(t: Table, f: Field) {
    f.Indexed() || exists c :: c in CompoundsOf(t) && f.Column() in c.columns
  }

  /** A text column that an index covers can be indexed by every database, freshly installed or added later. */
  lemma IndexedTextIsVarChar(all: seq<Table>, t: Table, a: nat)
    requires Known(all, t) && DistinctLower(Wanted(t)) && a < |t.fields|
    requires t.fields[a].fieldType.Text? && InAnIndex(t, t.fields[a])
    ensures FreshSpecs(t)[a + 1].kind == VarChar && AddedSpec(all, t.model, t.fields[a].Column()).kind == VarChar
  {
    DeclaredSpec(all, t, a);
    if !t.fields[a].Indexed() {
      var c :| c in CompoundsOf(t) && t.fields[a].Column() in c.columns;
      var i :| 0 <= i < |CompoundsOf(t)| && CompoundsOf(t)[i] == c;
    }
  }

  lemma AddedColumn(dialect: Dialect, all: seq<Table>, t: Table, live: Live, i: nat)
    requires Known(all, t) && TableOk(t) && Room(t, live) && i < |Absent(Wanted(t), live)|
    ensures var spec, grown := AddedSpec(all, t.model, Absent(Wanted(t), live)[i]), Grown(dialect, all, t, live);
            grown.Some? ==> Lower(spec.name) in grown.value.columns && grown.value.columns[Lower(spec.name)] == spec
  {
    var specs := AddedSpecs(all, t.model, Absent(Wanted(t), live));
    AddedFits(all, t, live);
    FittingColumnsGrow(dialect, live, specs);
    assert specs[i] == AddedSpec(all, t.model, Absent(Wanted(t), live)[i]);
  }

  /** A column the difference adds is defined as a fresh install would define it. */
  lemma AddedLikeFresh(dialect: Dialect, all: seq<Table>, t: Table, live: Live, a: nat)
    requires Known(all, t) && TableOk(t) && Room(t, live) && a < |t.fields|
             && Lower(t.fields[a].Column()) !in live.columns
    ensures var upgraded, installed := Grown(dialect, all, t, live), FreshLive(dialect, FreshSpecs(t), CompoundsOf(t));
            var key := Lower(t.fields[a].Column());
            && (Accepted(dialect, t, live) ==> upgraded.Some?) && (upgraded.Some? ==> key in upgraded.value.columns)
            && (upgraded.Some? && installed.Some? ==>
                 key in installed.value.columns && installed.value.columns[key] == upgraded.value.columns[key])
  {
    var i := AddedSpecIsFresh(all, t, live, a);
    TableIsIndexed(dialect, all, t, live);
    AddedColumn(dialect, all, t, live, i);
    InstalledColumn(dialect, t, a + 1);
  }

  lemma InstalledColumn(dialect: Dialect, t: Table, i: nat)
    requires TableOk(t) && i < |FreshSpecs(t)|
    ensures var installed := FreshLive(dialect, FreshSpecs(t), CompoundsOf(t));
            var key := Lower(FreshSpecs(t)[i].name);
            installed.Some? ==> key in installed.value.columns && installed.value.columns[key] == FreshSpecs(t)[i]
  {
    FreshFits(t);
    FittingColumnsGrow(dialect, NO_TABLE, FreshSpecs(t));
    var grown := GrowColumns(dialect, NO_TABLE, FreshSpecs(t));
    if grown.Some? {
      IndexingKeepsColumns(dialect, grown.value, CompoundsOf(t));
    }
  }

  lemma {:induction false} IndexingKeepsColumns(dialect: Dialect, live: Live, compounds: seq<Compound>)
    ensures var indexed := GrowIndexes(dialect, live, compounds);
            indexed.Some? ==> indexed.value.columns == live.columns
  {
    if compounds != [] {
      IndexingKeepsColumns(dialect, live, compounds[..|compounds| - 1]);
    }
  }

  lemma {:induction false} AbsentHas(columns: seq<Name>, live: Live, i: nat)
    requires i < |columns| && Lower(columns[i]) !in live.columns
    ensures columns[i] in Absent(columns, live)
  {
    if i < |columns| - 1 {
      AbsentHas(columns[..|columns| - 1], live, i);
    }
  }

  lemma OnlyField(t: Table, a: nat)
    requires DistinctLower(Wanted(t)) && a < |t.fields|
    ensures FieldIn(t.fields, t.fields[a].Column()) == Some(t.fields[a])
  {
    FieldInFacts(t.fields, t.fields[a].Column());
    var f := FieldIn(t.fields, t.fields[a].Column()).value;
    var b :| 0 <= b < |t.fields| && t.fields[b] == f;
    assert Lower(Wanted(t)[b + 1]) == Lower(Wanted(t)[a + 1]);
    assert !(a + 1 < b + 1) && !(b + 1 < a + 1);
  }

  // ------------------------------------------------------------------ statements over several tables

  function Key(t: Table): Name {
    Lower(t.model)
  }

  function Keys(ts: seq<Table>): seq<Name> {
    seq(|ts|, i requires 0 <= i < |ts| => Key(ts[i]))
  }

  /** The database after each of `keys` was set to its own table. */
  ghost predicate Updated(db: Db, after: Db, keys: seq<Name>, lives: seq<Live>) {
    && |keys| == |lives|
    && (forall k :: k in after <==> k in db || k in keys)
    && (forall i :: 0 <= i < |keys| ==> after[keys[i]] == lives[i])
    && (forall k :: k in db && k !in keys ==> after[k] == db[k])
  }

  lemma UpdatedOnceMore(db: Db, mid: Db, keys: seq<Name>, lives: seq<Live>, key: Name, live: Live)
    requires Updated(db, mid, keys, lives) && key !in keys
    ensures Updated(db, mid[key := live], keys + [key], lives + [live])
  {}

  lemma KeysSnoc(ts: seq<Table>)
    requires ts != [] && DistinctModels(ts)
    ensures Keys(ts) == Keys(ts[..|ts| - 1]) + [Key(ts[|ts| - 1])] && Key(ts[|ts| - 1]) !in Keys(ts[..|ts| - 1])
    ensures DistinctModels(ts[..|ts| - 1])
  {
    var front := ts[..|ts| - 1];
    forall i | 0 <= i < |front| ensures Keys(front)[i] != Key(ts[|ts| - 1]) {
      assert front[i] == ts[i];
    }
  }

  function FreshOf(dialect: Dialect, t: Table): Option<Live> {
    FreshLive(dialect, FreshSpecs(t), CompoundsOf(t))
  }

  ghost predicate AllFresh(dialect: Dialect, ts: seq<Table>, lives: seq<Live>) {
    |lives| == |ts| && forall i :: 0 <= i < |ts| ==> FreshOf(dialect, ts[i]) == Some(lives[i])
  }

  /** The created tables are all new, so each stands as it was written; one that cannot be written stops them all. */
  lemma {:induction false} CreatesApply(dialect: Dialect, db: Db, ts: seq<Table>) returns (lives: seq<Live>)
    requires DistinctModels(ts) && forall i :: 0 <= i < |ts| ==> Key(ts[i]) !in db
    ensures ApplyAll(dialect, db, Creates(ts)).Some? ==>
              Updated(db, ApplyAll(dialect, db, Creates(ts)).value, Keys(ts), lives) && AllFresh(dialect, ts, lives)
    ensures ApplyAll(dialect, db, Creates(ts)).None? ==> exists i :: 0 <= i < |ts| && FreshOf(dialect, ts[i]).None?
  {
    lives := [];
    if ts != [] {
      var n := |ts| - 1;
      var front, t := ts[..n], ts[n];
      KeysSnoc(ts);
      var before := CreatesApply(dialect, db, front);
      var mid := ApplyAll(dialect, db, Creates(front));
      CreateOne(dialect, db, ts);
      if mid.None? {
        var i :| 0 <= i < n && FreshOf(dialect, front[i]).None?;
        assert FreshOf(dialect, ts[i]).None?;
      } else if FreshOf(dialect, t).Some? {
        lives := before + [FreshOf(dialect, t).value];
        UpdatedOnceMore(db, mid.value, Keys(front), before, Key(t), lives[n]);
        AllFreshSnoc(dialect, ts, lives);
      }
    }
  }

  lemma AllFreshSnoc(dialect: Dialect, ts: seq<Table>, lives: seq<Live>)
    requires |ts| == |lives| > 0
    requires var n := |ts| - 1; AllFresh(dialect, ts[..n], lives[..n]) && FreshOf(dialect, ts[n]) == Some(lives[n])
    ensures AllFresh(dialect, ts, lives)
  {
    var n := |ts| - 1;
    forall i | 0 <= i < |ts| ensures FreshOf(dialect, ts[i]) == Some(lives[i]) {
      if i < n {
        assert ts[..n][i] == ts[i] && lives[..n][i] == lives[i];
      }
    }
  }

  lemma CreateOne(dialect: Dialect, db: Db, ts: seq<Table>)
    requires ts != []
    ensures var before, t := ApplyAll(dialect, db, Creates(ts[..|ts| - 1])), ts[|ts| - 1];
            ApplyAll(dialect, db, Creates(ts))
            == if before.None? || Key(t) in before.value then None else At(before.value, t.model, FreshOf(dialect, t))
  {
    var front, t := ts[..|ts| - 1], ts[|ts| - 1];
    var last := Create(t.model, FreshSpecs(t), CompoundsOf(t));
    assert Creates(ts) == Creates(front) + [last];
    ApplyOneMore(dialect, db, Creates(front), last);
  }

  lemma {:induction false} KeepFacts(ts: seq<Table>, wanted: Table -> bool)
    requires DistinctModels(ts)
    ensures DistinctModels(Keep(ts, wanted)) && forall t :: t in Keep(ts, wanted) <==> t in ts && wanted(t)
  {
    if ts != [] {
      var front, last := ts[..|ts| - 1], ts[|ts| - 1];
      assert ts == front + [last];
      assert forall i :: 0 <= i < |front| ==> front[i] == ts[i];
      KeepFacts(front, wanted);
      forall i | 0 <= i < |Keep(front, wanted)| ensures Lower(Keep(front, wanted)[i].model) != Lower(last.model) {
        assert Keep(front, wanted)[i] in front;
      }
    }
  }

  lemma {:induction false} InsertMembers(t: Table, ts: seq<Table>)
    ensures forall u :: u in Insert(t, ts) <==> u == t || u in ts
  {
    if ts != [] && Order(t) > Order(ts[0]) {
      InsertMembers(t, ts[1..]);
      assert ts == [ts[0]] + ts[1..];
    }
  }

  lemma {:induction false} InsertDistinct(t: Table, ts: seq<Table>)
    requires DistinctModels(ts) && forall u :: u in ts ==> Lower(u.model) != Lower(t.model)
    ensures DistinctModels(Insert(t, ts))
  {
    if ts != [] && Order(t) > Order(ts[0]) {
      InsertDistinct(t, ts[1..]);
      InsertMembers(t, ts[1..]);
      var rest := Insert(t, ts[1..]);
      forall i | 0 <= i < |rest| ensures Lower(rest[i].model) != Lower(ts[0].model) {
        assert rest[i] == t || rest[i] in ts[1..];
      }
    }
  }

  /** Sorting by order keeps the tables, and puts none before one of lower order. */
  lemma {:induction false} SortedFacts(ts: seq<Table>)
    requires DistinctModels(ts)
    ensures DistinctModels(Sorted(ts)) && forall t :: t in Sorted(ts) <==> t in ts
  {
    if ts != [] {
      SortedFacts(ts[1..]);
      var rest := Sorted(ts[1..]);
      assert ts == [ts[0]] + ts[1..];
      InsertMembers(ts[0], rest);
      InsertDistinct(ts[0], rest);
    }
  }

  lemma {:induction false} SortedIsOrdered(ts: seq<Table>)
    ensures forall i, j :: 0 <= i < j < |Sorted(ts)| ==> Order(Sorted(ts)[i]) <= Order(Sorted(ts)[j])
  {
    if ts != [] {
      SortedIsOrdered(ts[1..]);
      InsertIsOrdered(ts[0], Sorted(ts[1..]));
    }
  }

  lemma {:induction false} InsertIsOrdered(t: Table, ts: seq<Table>)
    requires forall i, j :: 0 <= i < j < |ts| ==> Order(ts[i]) <= Order(ts[j])
    ensures forall i, j :: 0 <= i < j < |Insert(t, ts)| ==> Order(Insert(t, ts)[i]) <= Order(Insert(t, ts)[j])
    ensures forall i :: 0 <= i < |Insert(t, ts)| ==> Insert(t, ts)[i] == t || Insert(t, ts)[i] in ts
  {
    if ts != [] && Order(t) > Order(ts[0]) {
      InsertIsOrdered(t, ts[1..]);
      var rest := Insert(t, ts[1..]);
      forall i | 0 <= i < |rest| ensures Order(ts[0]) <= Order(rest[i]) {
        assert rest[i] == t || rest[i] in ts[1..];
      }
    }
  }

  /** The tables that the listing found. */
  function Existing(ts: seq<Table>, db0: Db): seq<Table> {
    Keep(ts, (t: Table) => Key(t) in db0)
  }

  lemma {:induction false} ColumnsOfExisting(all: seq<Table>, ts: seq<Table>, db0: Db, wanted: Table -> bool)
    requires forall t :: wanted(t) <==> Key(t) in db0
    ensures ColumnsUp(all, Keep(ts, wanted), db0) == ColumnsUp(all, ts, db0)
  {
    if ts != [] {
      ColumnsOfExisting(all, ts[..|ts| - 1], db0, wanted);
      KeepSnoc(ts, wanted);
    }
  }

  lemma {:induction false} IndexesOfExisting(all: seq<Table>, ts: seq<Table>, db0: Db, wanted: Table -> bool)
    requires forall t :: wanted(t) <==> Key(t) in db0
    ensures IndexesUp(all, Keep(ts, wanted), db0) == IndexesUp(all, ts, db0)
  {
    if ts != [] {
      IndexesOfExisting(all, ts[..|ts| - 1], db0, wanted);
      KeepSnoc(ts, wanted);
    }
  }

  lemma KeepSnoc(ts: seq<Table>, wanted: Table -> bool)
    requires ts != []
    ensures var some, t := Keep(ts[..|ts| - 1], wanted), ts[|ts| - 1];
            if wanted(t) then Keep(ts, wanted) == some + [t] && (some + [t])[..|some|] == some
            else Keep(ts, wanted) == some
  {}

  /** The tables of `ts` stand in the database as `lives` says. */
  ghost predicate Stand(db: Db, ts: seq<Table>, lives: seq<Live>) {
    |lives| == |ts| && forall i :: 0 <= i < |ts| ==> Key(ts[i]) in db && db[Key(ts[i])] == lives[i]
  }

  lemma StandSnoc(db: Db, ts: seq<Table>, lives: seq<Live>)
    requires ts != [] && Stand(db, ts, lives)
    ensures Stand(db, ts[..|ts| - 1], lives[..|ts| - 1])
    ensures Key(ts[|ts| - 1]) in db && db[Key(ts[|ts| - 1])] == lives[|ts| - 1]
  {}

  lemma StillThere(db: Db, after: Db, keys: seq<Name>, lives: seq<Live>, key: Name)
    requires Updated(db, after, keys, lives) && key in db && key !in keys
    ensures key in after && after[key] == db[key]
  {}

  ghost predicate AllGrown(dialect: Dialect, all: seq<Table>, ts: seq<Table>, was: seq<Live>, lives: seq<Live>)
    requires |was| == |ts|
  {
    |lives| == |ts| && forall i :: 0 <= i < |ts| ==> Grown(dialect, all, ts[i], was[i]) == Some(lives[i])
  }

  lemma AllGrownSnoc(dialect: Dialect, all: seq<Table>, ts: seq<Table>, was: seq<Live>, lives: seq<Live>)
    requires |was| == |ts| == |lives| > 0
    requires var n := |ts| - 1;
             && AllGrown(dialect, all, ts[..n], was[..n], lives[..n])
             && Grown(dialect, all, ts[n], was[n]) == Some(lives[n])
    ensures AllGrown(dialect, all, ts, was, lives)
  {
    var n := |ts| - 1;
    forall i | 0 <= i < |ts| ensures Grown(dialect, all, ts[i], was[i]) == Some(lives[i]) {
      if i < n {
        assert ts[..n][i] == ts[i] && was[..n][i] == was[i] && lives[..n][i] == lives[i];
      }
    }
  }

  /** Every table that lacks columns is widened; one that cannot be stops them all. */
  lemma {:induction false} ColumnsApply(dialect: Dialect, all: seq<Table>, ts: seq<Table>, db0: Db, db: Db,
                                        was: seq<Live>)
    returns (lives: seq<Live>)
    requires DistinctModels(ts) && Stand(db0, ts, was) && Stand(db, ts, was)
    ensures var after := ApplyAll(dialect, db, ColumnsUp(all, ts, db0));
            if after.Some? then Updated(db, after.value, Keys(ts), lives) && AllGrown(dialect, all, ts, was, lives)
            else exists i :: 0 <= i < |ts| && Grown(dialect, all, ts[i], was[i]).None?
  {
    lives := [];
    if ts != [] {
      var n := |ts| - 1;
      var front, t := ts[..n], ts[n];
      KeysSnoc(ts);
      StandSnoc(db0, ts, was);
      StandSnoc(db, ts, was);
      var before := ColumnsApply(dialect, all, front, db0, db, was[..n]);
      var mid := ApplyAll(dialect, db, ColumnsUp(all, front, db0));
      if mid.None? {
        OneColumnsUp(dialect, all, ts, db0, db);
        var i :| 0 <= i < n && Grown(dialect, all, front[i], was[..n][i]).None?;
        assert Grown(dialect, all, ts[i], was[i]).None?;
      } else {
        StillThere(db, mid.value, Keys(front), before, Key(t));
        OneColumnsUp(dialect, all, ts, db0, db);
        if Grown(dialect, all, t, was[n]).Some? {
          lives := before + [Grown(dialect, all, t, was[n]).value];
          UpdatedOnceMore(db, mid.value, Keys(front), before, Key(t), lives[n]);
          AllGrownSnoc(dialect, all, ts, was, lives);
        }
      }
    }
  }

  /** The last table's part of the widening. */
  lemma OneColumnsUp(dialect: Dialect, all: seq<Table>, ts: seq<Table>, db0: Db, db: Db)
    requires ts != [] && Key(ts[|ts| - 1]) in db0
    requires var mid, key := ApplyAll(dialect, db, ColumnsUp(all, ts[..|ts| - 1], db0)), Key(ts[|ts| - 1]);
             mid.Some? ==> key in mid.value && mid.value[key] == db0[key]
    ensures var mid, t := ApplyAll(dialect, db, ColumnsUp(all, ts[..|ts| - 1], db0)), ts[|ts| - 1];
            ApplyAll(dialect, db, ColumnsUp(all, ts, db0))
            == if mid.None? then None else At(mid.value, t.model, Grown(dialect, all, t, db0[Key(t)]))
  {
    var front, t := ts[..|ts| - 1], ts[|ts| - 1];
    var absent := Absent(Wanted(t), db0[Key(t)]);
    var mid := ApplyAll(dialect, db, ColumnsUp(all, front, db0));
    if absent == [] {
      assert AddedSpecs(all, t.model, absent) == [];
      assert mid.Some? ==> mid.value[Key(t) := db0[Key(t)]] == mid.value;
    } else {
      ApplyOneMore(dialect, db, ColumnsUp(all, front, db0), AddColumns(t.model, AddedSpecs(all, t.model, absent)));
    }
  }

  function IndexedOf(dialect: Dialect, all: seq<Table>, t: Table, was: Live, live: Live): Option<Live> {
    GrowIndexes(dialect, live, AbsentIndexes(CompoundFor(all, t.model), was))
  }

  lemma {:induction false} AddIndexesApply(dialect: Dialect, db: Db, table: Name, compounds: seq<Compound>)
    requires Lower(table) in db
    ensures ApplyAll(dialect, db, AddIndexes(table, compounds))
            == At(db, table, GrowIndexes(dialect, db[Lower(table)], compounds))
  {
    if compounds == [] {
      assert db[Lower(table) := db[Lower(table)]] == db;
    } else {
      var front, last := compounds[..|compounds| - 1], compounds[|compounds| - 1];
      AddIndexesApply(dialect, db, table, front);
      assert AddIndexes(table, compounds) == AddIndexes(table, front) + [AddIndex(table, last)];
      ApplyOneMore(dialect, db, AddIndexes(table, front), AddIndex(table, last));
      var mid, all := GrowIndexes(dialect, db[Lower(table)], front), GrowIndexes(dialect, db[Lower(table)], compounds);
      if all.Some? {
        assert db[Lower(table) := mid.value][Lower(table) := all.value] == db[Lower(table) := all.value];
      }
    }
  }

  ghost predicate AllIndexed(dialect: Dialect, all: seq<Table>, ts: seq<Table>, was: seq<Live>, grown: seq<Live>,
                             lives: seq<Live>)
    requires |was| == |grown| == |ts|
  {
    |lives| == |ts| && forall i :: 0 <= i < |ts| ==> IndexedOf(dialect, all, ts[i], was[i], grown[i]) == Some(lives[i])
  }

  lemma {:induction false} IndexesApply(dialect: Dialect, all: seq<Table>, ts: seq<Table>, db0: Db, db: Db,
                                        was: seq<Live>, grown: seq<Live>)
    returns (lives: seq<Live>)
    requires DistinctModels(ts) && Stand(db0, ts, was) && Stand(db, ts, grown)
    ensures var after := ApplyAll(dialect, db, IndexesUp(all, ts, db0));
            after.Some? ==> Updated(db, after.value, Keys(ts), lives) && AllIndexed(dialect, all, ts, was, grown, lives)
    ensures ApplyAll(dialect, db, IndexesUp(all, ts, db0)).None? ==>
              exists i :: 0 <= i < |ts| && IndexedOf(dialect, all, ts[i], was[i], grown[i]).None?
  {
    lives := [];
    if ts != [] {
      var n := |ts| - 1;
      var front, t := ts[..n], ts[n];
      KeysSnoc(ts);
      StandSnoc(db0, ts, was);
      StandSnoc(db, ts, grown);
      var before := IndexesApply(dialect, all, front, db0, db, was[..n], grown[..n]);
      var mid := ApplyAll(dialect, db, IndexesUp(all, front, db0));
      if mid.Some? {
        StillThere(db, mid.value, Keys(front), before, Key(t));
      }
      IndexOne(dialect, all, ts, db0, db);
      if mid.None? {
        var i :| 0 <= i < n && IndexedOf(dialect, all, front[i], was[..n][i], grown[..n][i]).None?;
        assert IndexedOf(dialect, all, ts[i], was[i], grown[i]).None?;
      } else if IndexedOf(dialect, all, t, was[n], grown[n]).Some? {
        lives := before + [IndexedOf(dialect, all, t, was[n], grown[n]).value];
        UpdatedOnceMore(db, mid.value, Keys(front), before, Key(t), lives[n]);
        IndexedSnoc(dialect, all, ts, was, grown, lives);
      }
    }
  }

  lemma IndexedSnoc(dialect: Dialect, all: seq<Table>, ts: seq<Table>, was: seq<Live>, grown: seq<Live>,
                    lives: seq<Live>)
    requires |was| == |grown| == |ts| == |lives| > 0
    requires var n := |ts| - 1;
             && AllIndexed(dialect, all, ts[..n], was[..n], grown[..n], lives[..n])
             && IndexedOf(dialect, all, ts[n], was[n], grown[n]) == Some(lives[n])
    ensures AllIndexed(dialect, all, ts, was, grown, lives)
  {
    var n := |ts| - 1;
    forall i | 0 <= i < |ts| ensures IndexedOf(dialect, all, ts[i], was[i], grown[i]) == Some(lives[i]) {
      if i < n {
        assert ts[..n][i] == ts[i] && was[..n][i] == was[i] && grown[..n][i] == grown[i] && lives[..n][i] == lives[i];
      }
    }
  }

  lemma IndexOne(dialect: Dialect, all: seq<Table>, ts: seq<Table>, db0: Db, db: Db)
    requires ts != [] && Key(ts[|ts| - 1]) in db0
    requires var mid := ApplyAll(dialect, db, IndexesUp(all, ts[..|ts| - 1], db0));
             mid.Some? ==> Key(ts[|ts| - 1]) in mid.value
    ensures var mid, t := ApplyAll(dialect, db, IndexesUp(all, ts[..|ts| - 1], db0)), ts[|ts| - 1];
            ApplyAll(dialect, db, IndexesUp(all, ts, db0))
            == if mid.None? then None
               else At(mid.value, t.model, IndexedOf(dialect, all, t, db0[Key(t)], mid.value[Key(t)]))
  {
    var front, t := ts[..|ts| - 1], ts[|ts| - 1];
    var out := AbsentIndexes(CompoundFor(all, t.model), db0[Key(t)]);
    ApplyBoth(dialect, db, IndexesUp(all, front, db0), AddIndexes(t.model, out));
    var mid := ApplyAll(dialect, db, IndexesUp(all, front, db0));
    if mid.Some? {
      AddIndexesApply(dialect, mid.value, t.model, out);
    }
  }

  // ------------------------------------------------------------------ main results

  ghost predicate WellFormed(ts: seq<Table>, db: Db) {
    && DistinctModels(ts)
    && forall t :: t in ts && !t.disabled ==> TableOk(t) && (Key(t) in db ==> Room(t, db[Key(t)]))
  }

  /** The table as it stands; one still to be created has nothing and holds nothing. */
  function Standing(t: Table, db: Db): Live {
    if Key(t) in db then db[Key(t)] else NO_TABLE
  }

  /** Every index still to be created covers only columns the table has or wants. */
  ghost predicate IndexesDeclared(ts: seq<Table>, db: Db) {
    forall t :: t in ts && !t.disabled ==> IndexColumnsExist(t, Standing(t, db))
  }

  /** Some index still to be created is over a text column. */
  ghost predicate IndexesText(ts: seq<Table>, db: Db) {
    exists t :: t in ts && !t.disabled && KeysText(t, Standing(t, db))
  }

  /** Some table that holds rows is to get a required column. */
  ghost predicate RowsLackAValue(ts: seq<Table>, db: Db) {
    exists t :: t in ts && !t.disabled && DemandsOfRows(t, Standing(t, db))
  }

  /** What a caller can check before running `up`. */
  ghost predicate Applicable(dialect: Dialect, ts: seq<Table>, db: Db) {
    && IndexesDeclared(ts, db)
    && (MysqlLike(dialect) ==> !IndexesText(ts, db))
    && (!MysqlLike(dialect) ==> !RowsLackAValue(ts, db))
  }

  ghost predicate NothingMissing(ts: seq<Table>, db: Db) {
    forall t :: t in ts && !t.disabled ==> Key(t) in db && Done(t, db[Key(t)])
  }

  lemma TablesKnown(ts: seq<Table>)
    requires DistinctModels(ts)
    ensures forall t :: t in ts ==> Known(ts, t)
  {
    forall t | t in ts ensures Known(ts, t) {
      var i :| 0 <= i < |ts| && ts[i] == t;
      LookupFinds(ts, i);
    }
  }

  function Created(ts: seq<Table>, db: Db): seq<Table> {
    Sorted(Enabled(CreatedTables(ts, db)))
  }

  lemma CreatedMembers(ts: seq<Table>, db: Db)
    requires DistinctModels(ts)
    ensures DistinctModels(Created(ts, db))
    ensures forall t :: t in Created(ts, db) <==> t in ts && !t.disabled && Key(t) !in db
  {
    KeepFacts(ts, (t: Table) => Lower(t.model) !in db);
    KeepFacts(CreatedTables(ts, db), (t: Table) => !t.disabled);
    SortedFacts(Enabled(CreatedTables(ts, db)));
  }

  ghost predicate Kept(db: Db, after: Db) {
    forall k :: k in db ==> k in after && after[k] == db[k]
  }

  /** What `up` leaves of the tables it creates. */
  ghost predicate CreatedDone(dialect: Dialect, ts: seq<Table>, after: Db) {
    forall t :: t in ts ==>
      Accepted(dialect, t, NO_TABLE) && Key(t) in after && FreshOf(dialect, t) == Some(after[Key(t)])
  }

  /** The first phase alone: created tables are done, or the dialect does not accept one of them. */
  lemma CreatePhase(dialect: Dialect, db: Db, created: seq<Table>)
    requires DistinctModels(created) && forall t :: t in created ==> TableOk(t) && Key(t) !in db
    ensures var after := ApplyAll(dialect, db, Creates(created));
            if after.None? then exists t :: t in created && !Accepted(dialect, t, NO_TABLE)
            else Kept(db, after.value) && CreatedDone(dialect, created, after.value)
  {
    assert forall i :: 0 <= i < |created| ==> created[i] in created;
    var lives := CreatesApply(dialect, db, created);
    var after := ApplyAll(dialect, db, Creates(created));
    if after.Some? {
      UpdatedStand(db, after.value, created, lives);
      KeptApart(db, after.value, created, lives);
      forall t | t in created
        ensures Accepted(dialect, t, NO_TABLE) && Key(t) in after.value
                && FreshOf(dialect, t) == Some(after.value[Key(t)])
      {
        var i :| 0 <= i < |created| && created[i] == t;
        FreshTable(dialect, t);
      }
    } else {
      var i :| 0 <= i < |created| && FreshOf(dialect, created[i]).None?;
      FreshTable(dialect, created[i]);
    }
  }

  lemma KeptApart(db: Db, after: Db, ts: seq<Table>, lives: seq<Live>)
    requires Updated(db, after, Keys(ts), lives) && forall t :: t in ts ==> Key(t) !in db
    ensures Kept(db, after)
  {
    assert forall i :: 0 <= i < |ts| ==> Keys(ts)[i] == Key(ts[i]) && ts[i] in ts;
    assert forall k :: k in db ==> k !in Keys(ts);
  }

  /** What `up` leaves of the tables that were there. */
  ghost predicate UpgradedDone(dialect: Dialect, all: seq<Table>, ts: seq<Table>, db0: Db, after: Db)
    requires forall t :: t in ts ==> Key(t) in db0
  {
    forall t :: t in ts ==>
      && Accepted(dialect, t, db0[Key(t)]) && Key(t) in after
      && UpgradedOf(dialect, all, t, db0[Key(t)]) == Some(after[Key(t)])
  }

  lemma UpgradeConcludes(dialect: Dialect, all: seq<Table>, t: Table, was: Live, grown: Option<Live>, live: Live)
    requires Known(all, t) && TableOk(t) && Room(t, was) && grown == Grown(dialect, all, t, was)
    ensures grown.None? ==> !Accepted(dialect, t, was)
    ensures grown.Some? && IndexedOf(dialect, all, t, was, grown.value).None? ==> !Accepted(dialect, t, was)
    ensures grown.Some? && IndexedOf(dialect, all, t, was, grown.value) == Some(live) ==>
              Accepted(dialect, t, was) && UpgradedOf(dialect, all, t, was) == Some(live)
  {
    TableIsIndexed(dialect, all, t, was);
  }

  lemma IndexPhase(dialect: Dialect, all: seq<Table>, ts: seq<Table>, db0: Db, mid: Db, was: seq<Live>,
                   grown: seq<Live>)
    requires DistinctModels(ts) && Stand(db0, ts, was) && Stand(mid, ts, grown)
    requires AllGrown(dialect, all, ts, was, grown)
    requires forall i :: 0 <= i < |ts| ==> Known(all, ts[i]) && TableOk(ts[i]) && Room(ts[i], was[i])
    ensures var after := ApplyAll(dialect, mid, IndexesUp(all, ts, db0));
            if after.None? then exists t :: t in ts && !Accepted(dialect, t, db0[Key(t)])
            else
              && (forall k :: k in mid && k !in Keys(ts) ==> k in after.value && after.value[k] == mid[k])
              && UpgradedDone(dialect, all, ts, db0, after.value)
  {
    var lives := IndexesApply(dialect, all, ts, db0, mid, was, grown);
    var after := ApplyAll(dialect, mid, IndexesUp(all, ts, db0));
    if after.Some? {
      UpdatedStand(mid, after.value, ts, lives);
      forall t | t in ts
        ensures Accepted(dialect, t, db0[Key(t)]) && Key(t) in after.value
                && UpgradedOf(dialect, all, t, db0[Key(t)]) == Some(after.value[Key(t)])
      {
        var i :| 0 <= i < |ts| && ts[i] == t;
        UpgradeConcludes(dialect, all, t, was[i], Some(grown[i]), lives[i]);
      }
    } else {
      var i :| 0 <= i < |ts| && IndexedOf(dialect, all, ts[i], was[i], grown[i]).None?;
      UpgradeConcludes(dialect, all, ts[i], was[i], Some(grown[i]), was[i]);
      assert ts[i] in ts;
    }
  }

  /** Both phases, on tables that stand as they were listed. */
  lemma UpgradeFrom(dialect: Dialect, all: seq<Table>, ts: seq<Table>, db0: Db, db: Db, was: seq<Live>)
    requires DistinctModels(ts) && Stand(db0, ts, was) && Stand(db, ts, was)
    requires forall i :: 0 <= i < |ts| ==> Known(all, ts[i]) && TableOk(ts[i]) && Room(ts[i], was[i])
    ensures var mid := ApplyAll(dialect, db, ColumnsUp(all, ts, db0));
            var after := if mid.None? then None else ApplyAll(dialect, mid.value, IndexesUp(all, ts, db0));
            if after.None? then exists t :: t in ts && !Accepted(dialect, t, db0[Key(t)])
            else
              && (forall k :: k in db && k !in Keys(ts) ==> k in after.value && after.value[k] == db[k])
              && UpgradedDone(dialect, all, ts, db0, after.value)
  {
    var grown := ColumnsApply(dialect, all, ts, db0, db, was);
    var mid := ApplyAll(dialect, db, ColumnsUp(all, ts, db0));
    if mid.None? {
      var i :| 0 <= i < |ts| && Grown(dialect, all, ts[i], was[i]).None?;
      UpgradeConcludes(dialect, all, ts[i], was[i], None, was[i]);
      assert ts[i] in ts;
    } else {
      UpdatedStand(db, mid.value, ts, grown);
      IndexPhase(dialect, all, ts, db0, mid.value, was, grown);
    }
  }

  lemma StandsAsListed(ts: seq<Table>, db0: Db, db: Db) returns (was: seq<Live>)
    requires Kept(db0, db) && forall t :: t in ts ==> Key(t) in db0
    ensures Stand(db0, ts, was) && Stand(db, ts, was)
  {
    assert forall i :: 0 <= i < |ts| ==> ts[i] in ts;
    was := seq(|ts|, i requires 0 <= i < |ts| => db0[Key(ts[i])]);
  }

  /** The last two phases on the tables that were there: done, or the dialect does not accept one. */
  lemma UpgradePhase(dialect: Dialect, all: seq<Table>, ts: seq<Table>, db0: Db, db: Db)
    requires DistinctModels(ts) && Kept(db0, db)
    requires forall t :: t in ts ==> Known(all, t) && TableOk(t) && Key(t) in db0 && Room(t, db0[Key(t)])
    ensures var after := ApplyAll(dialect, db, ColumnsUp(all, ts, db0) + IndexesUp(all, ts, db0));
            if after.None? then exists t :: t in ts && !Accepted(dialect, t, db0[Key(t)])
            else
              && (forall k :: k in db && k !in Keys(ts) ==> k in after.value && after.value[k] == db[k])
              && UpgradedDone(dialect, all, ts, db0, after.value)
  {
    var was := StandsAsListed(ts, db0, db);
    forall i | 0 <= i < |ts| ensures Known(all, ts[i]) && TableOk(ts[i]) && Room(ts[i], was[i]) {
      assert ts[i] in ts;
    }
    UpgradeFrom(dialect, all, ts, db0, db, was);
    ApplyBoth(dialect, db, ColumnsUp(all, ts, db0), IndexesUp(all, ts, db0));
  }

  lemma UpdatedStand(db: Db, after: Db, ts: seq<Table>, lives: seq<Live>)
    requires Updated(db, after, Keys(ts), lives)
    ensures Stand(after, ts, lives)
  {
    forall i | 0 <= i < |ts| ensures Key(ts[i]) in after && after[Key(ts[i])] == lives[i] {
      assert Keys(ts)[i] == Key(ts[i]);
    }
  }

  /** The tables the listing found, and what is known of them. */
  function Found(ts: seq<Table>, db: Db): seq<Table> {
    Existing(Enabled(ts), db)
  }

  lemma FoundMembers(ts: seq<Table>, db: Db)
    requires DistinctModels(ts)
    ensures DistinctModels(Found(ts, db)) && forall t :: t in Found(ts, db) <==> t in ts && !t.disabled && Key(t) in db
    ensures ColumnsUp(ts, Found(ts, db), db) == ColumnsUp(ts, Enabled(ts), db)
    ensures IndexesUp(ts, Found(ts, db), db) == IndexesUp(ts, Enabled(ts), db)
  {
    KeepFacts(ts, (t: Table) => !t.disabled);
    KeepFacts(Enabled(ts), (t: Table) => Key(t) in db);
    ColumnsOfExisting(ts, Enabled(ts), db, (t: Table) => Key(t) in db);
    IndexesOfExisting(ts, Enabled(ts), db, (t: Table) => Key(t) in db);
  }

  lemma UpInPhases(dialect: Dialect, ts: seq<Table>, db: Db)
    requires DistinctModels(ts)
    ensures var mid := ApplyAll(dialect, db, Creates(Created(ts, db)));
            var rest := ColumnsUp(ts, Found(ts, db), db) + IndexesUp(ts, Found(ts, db), db);
            ApplyAll(dialect, db, DiffUp(ts, db)) == if mid.None? then None else ApplyAll(dialect, mid.value, rest)
  {
    FoundMembers(ts, db);
    var created, found := Creates(Created(ts, db)), Found(ts, db);
    ApplyThree(dialect, db, created, ColumnsUp(ts, found, db), IndexesUp(ts, found, db));
  }

  lemma ApplyThree(dialect: Dialect, db: Db, a: seq<Statement>, b: seq<Statement>, c: seq<Statement>)
    ensures var mid := ApplyAll(dialect, db, a);
            ApplyAll(dialect, db, a + b + c) == if mid.None? then None else ApplyAll(dialect, mid.value, b + c)
  {
    assert a + b + c == a + (b + c);
    ApplyBoth(dialect, db, a, b + c);
  }

  lemma ApplicableByTable(dialect: Dialect, ts: seq<Table>, db: Db)
    ensures Applicable(dialect, ts, db)
       <==> forall t :: t in ts && !t.disabled ==> Accepted(dialect, t, Standing(t, db))
  {}

  /** A table as `up` leaves it: written anew, or with what it lacked. */
  function Result(dialect: Dialect, ts: seq<Table>, t: Table, db: Db): Option<Live> {
    if Key(t) in db then UpgradedOf(dialect, ts, t, db[Key(t)]) else FreshOf(dialect, t)
  }

  ghost predicate AllResults(dialect: Dialect, ts: seq<Table>, db: Db, after: Db) {
    forall t :: t in ts && !t.disabled ==>
      && Accepted(dialect, t, Standing(t, db)) && Key(t) in after
      && Result(dialect, ts, t, db) == Some(after[Key(t)])
  }

  /** A table nobody declares, or that is disabled, stays as it was. */
  ghost predicate OthersKept(ts: seq<Table>, db: Db, after: Db) {
    forall k :: k in db && (forall t :: t in ts && !t.disabled ==> Key(t) != k) ==> k in after && after[k] == db[k]
  }

  /** What the first phase kept or wrote and the later ones did not touch. */
  ghost predicate Passed(keys: seq<Name>, mid: Db, after: Db) {
    forall k :: k in mid && k !in keys ==> k in after && after[k] == mid[k]
  }

  lemma OneResult(dialect: Dialect, ts: seq<Table>, db: Db, mid: Db, after: Db, t: Table)
    requires DistinctModels(ts) && CreatedDone(dialect, Created(ts, db), mid)
    requires Passed(Keys(Found(ts, db)), mid, after) && forall f :: f in Found(ts, db) ==> Key(f) in db
    requires UpgradedDone(dialect, ts, Found(ts, db), db, after)
    requires t in ts && !t.disabled
    ensures Accepted(dialect, t, Standing(t, db)) && Key(t) in after
            && Result(dialect, ts, t, db) == Some(after[Key(t)])
  {
    CreatedMembers(ts, db);
    FoundMembers(ts, db);
    if Key(t) in db {
      assert t in Found(ts, db);
    } else {
      assert t in Created(ts, db);
      NotFound(ts, db, t);
    }
  }

  lemma OthersArePassed(ts: seq<Table>, db: Db, mid: Db, after: Db)
    requires DistinctModels(ts) && Kept(db, mid) && Passed(Keys(Found(ts, db)), mid, after)
    ensures OthersKept(ts, db, after)
  {
    FoundMembers(ts, db);
    var found := Found(ts, db);
    forall k | k in db && (forall t :: t in ts && !t.disabled ==> Key(t) != k) ensures k !in Keys(found) {
      assert forall i :: 0 <= i < |found| ==> found[i] in found;
    }
  }

  /** `up` applies exactly when the dialect accepts each table, and leaves each as its own lines say. */
  lemma UpLeaves(dialect: Dialect, ts: seq<Table>, db: Db)
    requires WellFormed(ts, db)
    ensures ApplyAll(dialect, db, DiffUp(ts, db)).Some? <==> Applicable(dialect, ts, db)
    ensures var after := ApplyAll(dialect, db, DiffUp(ts, db));
            after.Some? ==> AllResults(dialect, ts, db, after.value) && OthersKept(ts, db, after.value)
  {
    TablesKnown(ts);
    CreatedMembers(ts, db);
    FoundMembers(ts, db);
    UpInPhases(dialect, ts, db);
    CreatePhase(dialect, db, Created(ts, db));
    ApplicableByTable(dialect, ts, db);
    var mid := ApplyAll(dialect, db, Creates(Created(ts, db)));
    if mid.Some? {
      UpgradePhase(dialect, ts, Found(ts, db), db, mid.value);
      var after := ApplyAll(dialect, db, DiffUp(ts, db));
      if after.Some? {
        OthersArePassed(ts, db, mid.value, after.value);
        forall t | t in ts && !t.disabled
          ensures Accepted(dialect, t, Standing(t, db)) && Key(t) in after.value
                  && Result(dialect, ts, t, db) == Some(after.value[Key(t)])
        {
          OneResult(dialect, ts, db, mid.value, after.value, t);
        }
      }
    }
  }

  /** The table as it is left has everything it wants. */
  lemma ResultIsDone(dialect: Dialect, ts: seq<Table>, t: Table, db: Db)
    requires WellFormed(ts, db) && t in ts && !t.disabled && Result(dialect, ts, t, db).Some?
    ensures Done(t, Result(dialect, ts, t, db).value)
  {
    TablesKnown(ts);
    if Key(t) in db {
      TableIsIndexed(dialect, ts, t, db[Key(t)]);
    } else {
      FreshTable(dialect, t);
    }
  }

  /**
   * The whole of `up` applies exactly when every index it creates has its columns and, on
   * MySQL and MariaDB, none of them is a text column, while on the others no table that
   * holds rows gets a required column. Then every wanted table, column and compound index
   * is present.
   */
  lemma UpAppliesExactlyWhen(dialect: Dialect, ts: seq<Table>, db: Db)
    requires WellFormed(ts, db)
    ensures ApplyAll(dialect, db, DiffUp(ts, db)).Some?
       <==> && IndexesDeclared(ts, db)
            && (MysqlLike(dialect) ==> !IndexesText(ts, db))
            && (!MysqlLike(dialect) ==> !RowsLackAValue(ts, db))
    ensures var after := ApplyAll(dialect, db, DiffUp(ts, db)); after.Some? ==> NothingMissing(ts, after.value)
  {
    UpLeaves(dialect, ts, db);
    forall t | t in ts && !t.disabled && Result(dialect, ts, t, db).Some?
      ensures Done(t, Result(dialect, ts, t, db).value)
    {
      ResultIsDone(dialect, ts, t, db);
    }
  }

  lemma NotFound(ts: seq<Table>, db: Db, t: Table)
    requires DistinctModels(ts) && Key(t) !in db
    ensures Key(t) !in Keys(Found(ts, db))
  {
    FoundMembers(ts, db);
    var found := Found(ts, db);
    assert forall i :: 0 <= i < |found| ==> Keys(found)[i] == Key(found[i]) && found[i] in found;
  }

  predicate SpelledAsDeclared(t: Table, column: Name) {
    forall a :: 0 <= a < |t.fields| && Lower(t.fields[a].Column()) == Lower(column) ==> t.fields[a].Column() == column
  }

  /** Compound indexes spell the columns that the table declares as it declares them. */
  ghost predicate Spelled(t: Table) {
    forall c, k :: c in CompoundsOf(t) && 0 <= k < |c.columns| ==> SpelledAsDeclared(t, c.columns[k])
  }

  ghost predicate InAwaited(t: Table, live: Live, column: Name) {
    exists c :: Awaited(t, live, c) && column in c.columns
  }

  /** An index to come is over a field of documents that the table still lacks. */
  ghost predicate KeysDocument(t: Table, live: Live) {
    exists a :: && Lacks(t, live, a) && t.fields[a].fieldType.Document? && !t.fields[a].references
                && (t.fields[a].Indexed() || InAwaited(t, live, t.fields[a].Column()))
  }

  /** Or over a text column that is there already. */
  ghost predicate KeysLiveText(t: Table, live: Live) {
    exists c, k :: Awaited(t, live, c) && 0 <= k < |c.columns| && LiveText(live, Lower(c.columns[k]))
  }

  predicate LiveText(live: Live, column: Name) {
    column in live.columns && live.columns[column].kind.TextColumn?
  }

  /**
   * Strings that a key covers are varchars wherever the migration writes them, so an index
   * meets a text column only over documents, or over a column that was there before.
   */
  lemma KeysTextExactlyWhen(t: Table, live: Live)
    requires Spelled(t)
    ensures KeysText(t, live) <==> KeysDocument(t, live) || KeysLiveText(t, live)
  {}

  // ------------------------------------------------------------------ when nothing is left to do

  lemma {:induction false} NoColumnsUp(all: seq<Table>, ts: seq<Table>, db: Db)
    ensures ColumnsUp(all, ts, db) == [] <==>
              forall t :: t in ts && Key(t) in db ==> LowerSet(Wanted(t)) <= db[Key(t)].columns.Keys
  {
    if ts != [] {
      var front, last := ts[..|ts| - 1], ts[|ts| - 1];
      assert ts == front + [last];
      NoColumnsUp(all, front, db);
      if Key(last) in db {
        AbsentCovers(Wanted(last), db[Key(last)]);
      }
    }
  }

  lemma {:induction false} NoIndexesUp(all: seq<Table>, ts: seq<Table>, db: Db)
    requires forall t :: t in ts ==> Known(all, t)
    ensures IndexesUp(all, ts, db) == [] <==>
              forall t :: t in ts && Key(t) in db ==> IndexNames(CompoundsOf(t)) <= db[Key(t)].indexes.Keys
  {
    if ts != [] {
      var front, last := ts[..|ts| - 1], ts[|ts| - 1];
      assert ts == front + [last];
      NoIndexesUp(all, front, db);
      if Key(last) in db {
        AbsentIndexesCover(CompoundsOf(last), db[Key(last)]);
        assert last in ts && Known(all, last);
        assert CompoundFor(all, last.model) == CompoundsOf(last);
        var ss := AddIndexes(last.model, AbsentIndexes(CompoundsOf(last), db[Key(last)]));
        assert |ss| == |AbsentIndexes(CompoundsOf(last), db[Key(last)])|;
        assert IndexesUp(all, ts, db) == IndexesUp(all, front, db) + ss;
      }
    }
  }

  lemma NothingCreated(ts: seq<Table>, db: Db)
    requires DistinctModels(ts)
    ensures Creates(Created(ts, db)) == [] <==> forall t :: t in ts && !t.disabled ==> Key(t) in db
  {
    CreatedMembers(ts, db);
    var created := Created(ts, db);
    assert |Creates(created)| == |created|;
    if created != [] {
      assert created[0] in created;
    }
  }

  lemma DiffIsEmpty(ts: seq<Table>, db: Db)
    ensures DiffUp(ts, db) == []
            <==> (&& Creates(Created(ts, db)) == []
                  && ColumnsUp(ts, Enabled(ts), db) == []
                  && IndexesUp(ts, Enabled(ts), db) == [])
  {
    assert |DiffUp(ts, db)|
           == |Creates(Created(ts, db))| + |ColumnsUp(ts, Enabled(ts), db)| + |IndexesUp(ts, Enabled(ts), db)|;
  }

  /** The difference is empty exactly when nothing is missing. */
  lemma EmptyDiffMeansNothingMissing(ts: seq<Table>, db: Db)
    requires DistinctModels(ts)
    ensures DiffUp(ts, db) == [] <==> NothingMissing(ts, db)
  {
    TablesKnown(ts);
    KeepFacts(ts, (t: Table) => !t.disabled);
    DiffIsEmpty(ts, db);
    NothingCreated(ts, db);
    NoColumnsUp(ts, Enabled(ts), db);
    NoIndexesUp(ts, Enabled(ts), db);
  }

  /** After `up` the difference finds nothing more to do. */
  lemma UpReachesFixpoint(dialect: Dialect, ts: seq<Table>, db: Db)
    requires WellFormed(ts, db) && Applicable(dialect, ts, db)
    ensures var after := ApplyAll(dialect, db, DiffUp(ts, db)); after.Some? && DiffUp(ts, after.value) == []
  {
    UpAppliesExactlyWhen(dialect, ts, db);
    EmptyDiffMeansNothingMissing(ts, ApplyAll(dialect, db, DiffUp(ts, db)).value);
  }

  /** A column the difference adds to a live table is to be indexed on its own. */
  ghost predicate AddsIndexedColumn(ts: seq<Table>, db: Db) {
    exists t :: t in ts && !t.disabled && Key(t) in db && AddsIndexedTo(t, db[Key(t)])
  }

  ghost predicate AddsIndexedTo(t: Table, live: Live) {
    exists a :: 0 <= a < |t.fields| && t.fields[a].Indexed() && Lower(t.fields[a].Column()) !in live.columns
  }

  ghost predicate AnyIndexed(specs: seq<Spec>) {
    exists i :: 0 <= i < |specs| && specs[i].index.Some?
  }

  lemma IndexedSpecFrom(all: seq<Table>, t: Table, live: Live)
    requires Known(all, t) && AnyIndexed(AddedSpecs(all, t.model, Absent(Wanted(t), live)))
    ensures AddsIndexedTo(t, live)
  {
    var columns := Absent(Wanted(t), live);
    var i :| 0 <= i < |columns| && AddedSpec(all, t.model, columns[i]).index.Some?;
    AbsentMembers(Wanted(t), live);
    var a := AddedFrom(all, t, columns[i]);
    assert Lower(t.fields[a].Column()) !in live.columns;
  }

  lemma IndexedSpecFor(all: seq<Table>, t: Table, live: Live, a: nat)
    requires Known(all, t) && DistinctLower(Wanted(t)) && a < |t.fields|
    requires t.fields[a].Indexed() && Lower(t.fields[a].Column()) !in live.columns
    ensures AnyIndexed(AddedSpecs(all, t.model, Absent(Wanted(t), live)))
  {
    var columns := Absent(Wanted(t), live);
    assert Wanted(t)[a + 1] == t.fields[a].Column();
    AbsentHas(Wanted(t), live, a + 1);
    var i :| 0 <= i < |columns| && columns[i] == t.fields[a].Column();
    DeclaredSpec(all, t, a);
    assert AddedSpecs(all, t.model, columns)[i] == FreshSpecs(t)[a + 1];
  }

  lemma AddsIndexedSpec(all: seq<Table>, t: Table, live: Live)
    requires Known(all, t) && DistinctLower(Wanted(t))
    ensures AnyIndexed(AddedSpecs(all, t.model, Absent(Wanted(t), live))) <==> AddsIndexedTo(t, live)
  {
    if AnyIndexed(AddedSpecs(all, t.model, Absent(Wanted(t), live))) {
      IndexedSpecFrom(all, t, live);
    }
    if a :| 0 <= a < |t.fields| && t.fields[a].Indexed() && Lower(t.fields[a].Column()) !in live.columns {
      IndexedSpecFor(all, t, live, a);
    }
  }

  /** One table's part of the widening can be taken back unless it adds an indexed column. */
  lemma OneTableReversible(dialect: Dialect, all: seq<Table>, ts: seq<Table>, db: Db)
    requires ts != [] && Known(all, ts[|ts| - 1]) && DistinctLower(Wanted(ts[|ts| - 1]))
    ensures var t := ts[|ts| - 1];
            AllReversible(dialect, ColumnsUp(all, ts, db))
            <==> AllReversible(dialect, ColumnsUp(all, ts[..|ts| - 1], db))
                 && (!dialect.Sqlite? || (Key(t) in db ==> !AddsIndexedTo(t, db[Key(t)])))
  {
    var front, t := ts[..|ts| - 1], ts[|ts| - 1];
    if Key(t) in db {
      var absent := Absent(Wanted(t), db[Key(t)]);
      AddsIndexedSpec(all, t, db[Key(t)]);
      if absent != [] {
        AllReversibleSnoc(dialect, ColumnsUp(all, front, db) + [AddColumns(t.model, AddedSpecs(all, t.model, absent))]);
      } else {
        assert AddedSpecs(all, t.model, absent) == [];
      }
    }
  }

  /** The statements that widen live tables can be taken back unless one adds an indexed column. */
  lemma {:induction false} ColumnsReversible(dialect: Dialect, all: seq<Table>, ts: seq<Table>, db: Db)
    requires forall t :: t in ts ==> Known(all, t) && DistinctLower(Wanted(t))
    ensures AllReversible(dialect, ColumnsUp(all, ts, db))
       <==> !dialect.Sqlite? || forall t :: t in ts && Key(t) in db ==> !AddsIndexedTo(t, db[Key(t)])
  {
    if ts != [] {
      assert ts == ts[..|ts| - 1] + [ts[|ts| - 1]];
      ColumnsReversible(dialect, all, ts[..|ts| - 1], db);
      OneTableReversible(dialect, all, ts, db);
    }
  }

  lemma {:induction false} IndexesReversible(dialect: Dialect, all: seq<Table>, ts: seq<Table>, db: Db)
    ensures AllReversible(dialect, IndexesUp(all, ts, db))
  {
    if ts != [] {
      IndexesReversible(dialect, all, ts[..|ts| - 1], db);
    }
  }

  lemma ReversibleThree(dialect: Dialect, a: seq<Statement>, b: seq<Statement>, c: seq<Statement>)
    ensures AllReversible(dialect, a + b + c)
            <==> AllReversible(dialect, a) && AllReversible(dialect, b) && AllReversible(dialect, c)
  {
    var all := a + b + c;
    assert forall i :: 0 <= i < |a| ==> all[i] == a[i];
    assert forall i :: 0 <= i < |b| ==> all[|a| + i] == b[i];
    assert forall i :: 0 <= i < |c| ==> all[|a| + |b| + i] == c[i];
  }

  lemma DiffReversible(dialect: Dialect, ts: seq<Table>, db: Db)
    requires DistinctModels(ts) && forall t :: t in ts && !t.disabled ==> DistinctLower(Wanted(t))
    ensures AllReversible(dialect, DiffUp(ts, db)) <==> !dialect.Sqlite? || !AddsIndexedColumn(ts, db)
  {
    TablesKnown(ts);
    KeepFacts(ts, (t: Table) => !t.disabled);
    var created, columns := Creates(Created(ts, db)), ColumnsUp(ts, Enabled(ts), db);
    var indexes := IndexesUp(ts, Enabled(ts), db);
    assert forall i :: 0 <= i < |created| ==> created[i].Create?;
    ColumnsReversible(dialect, ts, Enabled(ts), db);
    IndexesReversible(dialect, ts, Enabled(ts), db);
    ReversibleThree(dialect, created, columns, indexes);
  }

  /**
   * Wherever `up` applies, `down` after it restores the database exactly when every
   * statement can be taken back: on SQLite, which drops no indexed column, when no column
   * added to a live table declares an index of its own, and on the others always.
   */
  lemma DownRestores(dialect: Dialect, ts: seq<Table>, db: Db)
    requires DbInv(db) && ApplyAll(dialect, db, DiffUp(ts, db)).Some?
    ensures var back := RevertAll(dialect, ApplyAll(dialect, db, DiffUp(ts, db)).value, Undo(DiffUp(ts, db)));
            back == if AllReversible(dialect, DiffUp(ts, db)) then Some(db) else None
    ensures !dialect.Sqlite? ==> AllReversible(dialect, DiffUp(ts, db))
    ensures DistinctModels(ts) && (forall t :: t in ts && !t.disabled ==> DistinctLower(Wanted(t))) ==>
              (AllReversible(dialect, DiffUp(ts, db)) <==> !dialect.Sqlite? || !AddsIndexedColumn(ts, db))
  {
    DownUndoesUp(dialect, db, DiffUp(ts, db));
    if DistinctModels(ts) && forall t :: t in ts && !t.disabled ==> DistinctLower(Wanted(t)) {
      DiffReversible(dialect, ts, db);
    }
  }

  // ------------------------------------------------------------------ inputs that fail

  /** A table with one field of its own and no order. */
  function OneField(model: Name, f: Field, declared: seq<Declared>): Table {
    Table(model, [f], declared, false, None)
  }

  function Plain(a: Name, fieldType: FieldType, optional: bool, unique: bool): Field {
    Field(a, None, fieldType, false, optional, unique, false, false, false)
  }

  /** A live table with its id, perhaps another column, and rows or not. */
  function LiveTable(model: Name, columns: map<Name, Spec>, filled: bool): Db {
    map[Lower(model) := Live(columns[Lower("id") := Spec("id", PrimaryKey, false, None)], map[], filled)]
  }

  /** On one table alone everything comes down to whether the dialect accepts it. */
  lemma OneTableAlone(dialect: Dialect, t: Table, db: Db)
    requires !t.disabled && WellFormed([t], db)
    ensures ApplyAll(dialect, db, DiffUp([t], db)).Some? <==> Accepted(dialect, t, Standing(t, db))
    ensures Applicable(dialect, [t], db) <==> Accepted(dialect, t, Standing(t, db))
  {
    assert t in [t];
    ApplicableByTable(dialect, [t], db);
    UpAppliesExactlyWhen(dialect, [t], db);
  }

  lemma OneFieldIsWellFormed(t: Table, f: Field, db: Db)
    requires t.fields == [f] && |t.indexes| <= 1 && Lower(f.Column()) != Lower("id") && Key(t) in db
    requires db[Key(t)].indexes == map[] && (t.indexes != [] ==> !f.Indexed())
    ensures WellFormed([t], db)
  {
    assert Wanted(t)[0] == "id" && Wanted(t)[1] == f.Column() && |Wanted(t)| == 2;
    assert |CompoundsOf(t)| <= 1 by {
      assert |t.indexes| == 1 ==> t.indexes[..0] == [] && Compounds(t, []) == [];
    }
    assert DistinctLower(Wanted(t)) && TableOk(t) && Room(t, db[Key(t)]);
  }

  lemma OneCompound(t: Table, a: Name)
    requires t.indexes == [Declared([a], true)] && ColumnOf(t.fields, a) == a
    ensures CompoundsOf(t) == [Compound([a], true, IndexName(t.model, [a], true))]
  {
    var cs := CompoundsOf(t);
    assert t.indexes[..0] == [] && Compounds(t, []) == [];
    assert |cs| == 1 && |cs[0].columns| == 1;
    assert cs[0].columns[0] == ColumnOf(t.fields, [a][0]) == a;
    assert cs[0].columns == [a];
  }

  /** A compound index over a field nobody declares: on every dialect the very first migration is refused. */
  lemma UndeclaredFieldIsRefused(dialect: Dialect, model: Name, a: Name)
    requires Lower(a) != Lower("id")
    ensures var ts := [Table(model, [], [Declared([a], true)], false, None)];
            WellFormed(ts, map[]) && ApplyAll(dialect, map[], DiffUp(ts, map[])).None?
  {
    var t := Table(model, [], [Declared([a], true)], false, None);
    OneCompound(t, a);
    assert Wanted(t) == ["id"] && DistinctLower(Wanted(t)) && TableOk(t);
    assert t in [t] && WellFormed([t], map[]);
    var c := CompoundsOf(t)[0];
    assert Awaited(t, NO_TABLE, c) && c.columns[0] == a;
    assert LowerSet(Wanted(t)) == {Lower("id")} by {
      assert Wanted(t)[0] == "id";
    }
    assert !IndexColumnsExist(t, Standing(t, map[]));
    OneTableAlone(dialect, t, map[]);
  }

  /** A text column that was there before an index over it was declared: MySQL refuses the upgrade. */
  lemma LiveTextIsNotKeyed(dialect: Dialect, model: Name, a: Name, filled: bool)
    requires Lower(a) != Lower("id")
    ensures var before := OneField(model, Plain(a, Text, false, false), []);
            var ts := [OneField(model, Plain(a, Text, false, false), [Declared([a], true)])];
            var db := LiveTable(model, map[Lower(a) := FreshSpecs(before)[1]], filled);
            WellFormed(ts, db) && (ApplyAll(dialect, db, DiffUp(ts, db)).None? <==> MysqlLike(dialect))
  {
    var before := OneField(model, Plain(a, Text, false, false), []);
    var t := OneField(model, Plain(a, Text, false, false), [Declared([a], true)]);
    var db := LiveTable(model, map[Lower(a) := FreshSpecs(before)[1]], filled);
    assert FreshSpecs(before)[1].kind.TextColumn?;
    OneFieldIsWellFormed(t, t.fields[0], db);
    TextUnderCompound(dialect, t, db[Key(t)], a);
    OneTableAlone(dialect, t, db);
  }

  lemma TextUnderCompound(dialect: Dialect, t: Table, live: Live, a: Name)
    requires t.indexes == [Declared([a], true)] && t.fields == [Plain(a, Text, false, false)]
    requires live.indexes == map[] && live.columns.Keys == {Lower("id"), Lower(a)}
    requires live.columns[Lower(a)].kind.TextColumn?
    ensures Accepted(dialect, t, live) <==> !MysqlLike(dialect)
  {
    OneCompound(t, a);
    var c := CompoundsOf(t)[0];
    assert CompoundsOf(t) == [c] && c.columns[0] == a && TextAt(t, live, Lower(c.columns[0]));
    assert Awaited(t, live, c) && CoversText(t, live, c);
    assert Covered(live.columns.Keys + LowerSet(Wanted(t)), c);
  }

  /** An indexed field of documents stays a text column: MySQL refuses it in a fresh install. */
  lemma IndexedDocumentIsRefused(dialect: Dialect, model: Name, a: Name)
    requires Lower(a) != Lower("id")
    ensures var ts := [OneField(model, Plain(a, Document, false, true), [])];
            WellFormed(ts, map[]) && (ApplyAll(dialect, map[], DiffUp(ts, map[])).None? <==> MysqlLike(dialect))
  {
    var t := OneField(model, Plain(a, Document, false, true), []);
    assert Wanted(t)[0] == "id" && Wanted(t)[1] == a && |Wanted(t)| == 2;
    assert CompoundsOf(t) == [] && DistinctLower(Wanted(t)) && TableOk(t);
    assert t in [t] && WellFormed([t], map[]);
    assert Lacks(t, NO_TABLE, 0) && t.fields[0].Indexed() && FieldSpec(t, 0).kind.TextColumn?;
    OneTableAlone(dialect, t, map[]);
  }

  /** A required column on a table with rows: every dialect but MySQL and MariaDB refuses the upgrade. */
  lemma RequiredColumnIsRefused(dialect: Dialect, model: Name, a: Name, fieldType: FieldType, filled: bool)
    requires Lower(a) != Lower("id")
    ensures var ts, db := [OneField(model, Plain(a, fieldType, false, false), [])], LiveTable(model, map[], filled);
            && WellFormed(ts, db)
            && (ApplyAll(dialect, db, DiffUp(ts, db)).None? <==> filled && !MysqlLike(dialect))
  {
    var t, db := OneField(model, Plain(a, fieldType, false, false), []), LiveTable(model, map[], filled);
    OneFieldIsWellFormed(t, t.fields[0], db);
    RequiredUnderRows(dialect, t, db[Key(t)]);
    OneTableAlone(dialect, t, db);
  }

  lemma RequiredUnderRows(dialect: Dialect, t: Table, live: Live)
    requires |t.fields| == 1 && t.indexes == [] && !t.fields[0].Indexed() && !t.fields[0].optional && Lacks(t, live, 0)
    ensures Accepted(dialect, t, live) <==> !(live.filled && !MysqlLike(dialect))
  {
    assert CompoundsOf(t) == [] && Lacks(t, live, 0) && !t.fields[0].optional;
  }

  /** On SQLite a migration that adds an indexed column applies, and its `down` is refused. */
  lemma SqliteRefusesDown(ts: seq<Table>, db: Db)
    requires WellFormed(ts, db) && DbInv(db) && Applicable(Sqlite, ts, db) && AddsIndexedColumn(ts, db)
    ensures ApplyAll(Sqlite, db, DiffUp(ts, db)).Some?
    ensures RevertAll(Sqlite, ApplyAll(Sqlite, db, DiffUp(ts, db)).value, Undo(DiffUp(ts, db))).None?
  {
    UpAppliesExactlyWhen(Sqlite, ts, db);
    DownRestores(Sqlite, ts, db);
  }

  /** A plugin's unique column, optional as it has to be, on a table that holds rows is such a migration. */
  lemma SqliteKeepsAnIndexedColumn(model: Name, a: Name)
    requires Lower(a) != Lower("id")
    ensures var ts, db := [OneField(model, Plain(a, Text, true, true), [])], LiveTable(model, map[], true);
            && WellFormed(ts, db) && ApplyAll(Sqlite, db, DiffUp(ts, db)).Some?
            && RevertAll(Sqlite, ApplyAll(Sqlite, db, DiffUp(ts, db)).value, Undo(DiffUp(ts, db))).None?
  {
    var t, db := OneField(model, Plain(a, Text, true, true), []), LiveTable(model, map[], true);
    OneFieldIsWellFormed(t, t.fields[0], db);
    assert Lacks(t, db[Key(t)], 0) && t.fields[0].Indexed() && CompoundsOf(t) == [];
    assert t in [t] && AddsIndexedTo(t, db[Key(t)]);
    OneTableAlone(Sqlite, t, db);
    SqliteRefusesDown([t], db);
  }
}
