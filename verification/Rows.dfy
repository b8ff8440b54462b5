/**
 * `consumeOne` and `incrementOne` of the auth adapter: each call reads a row and later
 * writes it, and the calls of many callers interleave between the two.
 */
module Rows {
  import opened Options

  type Id = nat
  type Field = nat
  type Caller = nat
  datatype Row = Row(id: Id, fields: map<Field, int>) {
    function Value(field: Field): int {
      if field in fields then fields[field] else 0
    }
  }

  // ------------------------------------------------------------------ where clauses

  /** One cleaned clause and its connector, which the first clause ignores. */
  datatype Clause = Clause(holds: Row -> bool, or: bool)

  /** The conjunction after the last OR: `and` binds tighter than `or` in the compiled query. */
  predicate LastGroup(where: seq<Clause>, row: Row) {
    if where == [] then true
    else
      var front, last := where[..|where| - 1], where[|where| - 1];
      if last.or && front != [] then last.holds(row) else LastGroup(front, row) && last.holds(row)
  }

  /** Some conjunction before the last OR. */
  predicate EarlierGroup(where: seq<Clause>, row: Row) {
    if where == [] then false
    else
      var front, last := where[..|where| - 1], where[|where| - 1];
      EarlierGroup(front, row) || (last.or && front != [] && LastGroup(front, row))
  }

  predicate Matches(where: seq<Clause>, row: Row) {
    EarlierGroup(where, row) || LastGroup(where, row)
  }

  /** `where[i..j]` is one conjunction: it starts at the front or at an OR, and goes up to the next OR or the end. */
  predicate Group(where: seq<Clause>, i: int, j: int) {
    && 0 <= i <= j <= |where| && (i < j || where == [])
    && (0 < i < |where| ==> where[i].or) && (j < |where| ==> where[j].or)
    && forall k :: i < k < j ==> !where[k].or
  }

  predicate AllHold(where: seq<Clause>, i: int, j: int, row: Row)
    requires 0 <= i <= j <= |where|
  {
    forall k :: i <= k < j ==> where[k].holds(row)
  }

  ghost predicate GroupHolds(where: seq<Clause>, i: int, j: int, row: Row) {
    Group(where, i, j) && AllHold(where, i, j, row)
  }

  /** What one more clause does to the conjunctions. */
  lemma GroupSnoc(where: seq<Clause>, i: int, j: int, row: Row)
    requires where != []
    ensures var n := |where| - 1;
            var front, last := where[..n], where[n];
            && (j < n ==> (GroupHolds(where, i, j, row) <==> GroupHolds(front, i, j, row)))
            && (j == n ==> (GroupHolds(where, i, j, row) <==> last.or && front != [] && GroupHolds(front, i, j, row)))
            && (j == |where| && i < n ==>
                 (GroupHolds(where, i, j, row) <==> !last.or && last.holds(row) && GroupHolds(front, i, n, row)))
            && (j == |where| && i == n ==>
                 (GroupHolds(where, i, j, row) <==> last.holds(row) && (front == [] || last.or)))
  {}

  lemma {:induction false} LastGroupIsAGroup(where: seq<Clause>, row: Row)
    ensures LastGroup(where, row) <==> exists i :: GroupHolds(where, i, |where|, row)
  {
    var n := |where| - 1;
    if where == [] {
      assert GroupHolds(where, 0, 0, row);
    } else {
      LastGroupIsAGroup(where[..n], row);
      forall i
        ensures i < n ==> (GroupHolds(where, i, |where|, row)
                           <==> !where[n].or && where[n].holds(row) && GroupHolds(where[..n], i, n, row))
      {
        GroupSnoc(where, i, |where|, row);
      }
      GroupSnoc(where, n, |where|, row);
      assert forall i :: GroupHolds(where, i, |where|, row) ==> i <= n;
      if where[n].or || n == 0 {
        assert GroupHolds(where, n, |where|, row) <==> where[n].holds(row);
      } else if i :| GroupHolds(where[..n], i, n, row) {
        assert GroupHolds(where, i, |where|, row) <==> where[n].holds(row);
      }
    }
  }

  lemma {:induction false} EarlierGroupIsAGroup(where: seq<Clause>, row: Row)
    ensures EarlierGroup(where, row) <==> exists i, j :: j < |where| && GroupHolds(where, i, j, row)
  {
    if where != [] {
      var n := |where| - 1;
      var front := where[..n];
      EarlierGroupIsAGroup(front, row);
      LastGroupIsAGroup(front, row);
      forall i, j { GroupSnoc(where, i, j, row); }
      if EarlierGroup(front, row) {
        var i, j :| j < n && GroupHolds(front, i, j, row);
        assert GroupHolds(where, i, j, row);
      } else if EarlierGroup(where, row) {
        var i :| GroupHolds(front, i, n, row);
        assert GroupHolds(where, i, n, row);
      }
    }
  }

  /** A row matches exactly when all clauses of some conjunction hold; the first connector says nothing. */
  lemma MatchesExactlyAGroup(where: seq<Clause>, row: Row)
    ensures Matches(where, row) <==> exists i, j :: GroupHolds(where, i, j, row)
  {
    LastGroupIsAGroup(where, row);
    EarlierGroupIsAGroup(where, row);
    if i, j :| GroupHolds(where, i, j, row) {
      assert j < |where| || j == |where|;
    }
  }

  predicate AndOnly(where: seq<Clause>) {
    forall i :: 0 < i < |where| ==> !where[i].or
  }

  /** The guard of `incrementOne`: the same clauses again, and then the row's id. */
  function Guarded(where: seq<Clause>, id: Id): seq<Clause> {
    where + [Clause((row: Row) => row.id == id, false)]
  }

  /** What the guard really selects. */
  lemma GuardSelects(where: seq<Clause>, id: Id, row: Row)
    ensures Matches(Guarded(where, id), row) <==> EarlierGroup(where, row) || (LastGroup(where, row) && row.id == id)
  {
    assert Guarded(where, id)[..|where|] == where;
  }

  lemma {:induction false} NoEarlierGroup(where: seq<Clause>, row: Row)
    requires AndOnly(where)
    ensures !EarlierGroup(where, row)
  {
    if where != [] {
      NoEarlierGroup(where[..|where| - 1], row);
    }
  }

  /**
   * The guarded update reaches no row but the one that was read exactly when no other row
   * meets a conjunction that ends before an OR; with AND alone that is always so.
   */
  lemma GuardIsOneRow(where: seq<Clause>, id: Id, rows: map<Id, Row>)
    requires forall k :: k in rows ==> rows[k].id == k
    ensures (forall k :: k in rows && Matches(Guarded(where, id), rows[k]) ==> k == id)
       <==> (forall k :: k in rows && k != id ==> !EarlierGroup(where, rows[k]))
    ensures AndOnly(where) ==> forall k :: k in rows && Matches(Guarded(where, id), rows[k]) ==> k == id
  {
    forall k | k in rows
      ensures Matches(Guarded(where, id), rows[k])
              <==> EarlierGroup(where, rows[k]) || (LastGroup(where, rows[k]) && k == id)
      ensures AndOnly(where) ==> !EarlierGroup(where, rows[k])
    {
      GuardSelects(where, id, rows[k]);
      if AndOnly(where) {
        NoEarlierGroup(where, rows[k]);
      }
    }
  }

  /** No row at all meets a conjunction that ends before an OR; with AND alone there is none to meet. */
  ghost predicate NoEarlierGroupCanHold(where: seq<Clause>) {
    AndOnly(where) || forall row :: !EarlierGroup(where, row)
  }

  ghost predicate KeyedById(rows: map<Id, Row>) {
    forall k :: k in rows ==> rows[k].id == k
  }

  ghost predicate OneRowOf(rows: map<Id, Row>, where: seq<Clause>, id: Id) {
    forall k :: k in rows && Matches(Guarded(where, id), rows[k]) ==> k == id
  }

  /** Over all tables and ids, the guard is one row exactly when no earlier conjunction can hold at all. */
  lemma GuardIsOneRowInEveryTable(where: seq<Clause>)
    ensures (forall rows, id :: KeyedById(rows) ==> OneRowOf(rows, where, id)) <==> NoEarlierGroupCanHold(where)
  {
    forall rows, id | KeyedById(rows) && NoEarlierGroupCanHold(where) ensures OneRowOf(rows, where, id) {
      GuardIsOneRow(where, id, rows);
    }
    if row :| EarlierGroup(where, row) {
      if AndOnly(where) {
        NoEarlierGroup(where, row);
      }
      var rows, other := map[row.id := row], row.id + 1;
      GuardSelects(where, other, row);
      assert row.id in rows && Matches(Guarded(where, other), rows[row.id]) && row.id != other;
      assert KeyedById(rows) && !OneRowOf(rows, where, other);
    }
  }

  /** `first` can pick one row while another meets an earlier conjunction. */
  ghost predicate CanReachAnother(where: seq<Clause>) {
    exists picked: Row, other: Row :: picked.id != other.id && Matches(where, picked) && EarlierGroup(where, other)
  }

  /** For the ids a read can really pick, the guard is one row exactly when no two such rows can be. */
  lemma GuardIsOneRowWherePicked(where: seq<Clause>)
    ensures (forall rows, id :: KeyedById(rows) && id in rows && Matches(where, rows[id]) ==> OneRowOf(rows, where, id))
       <==> !CanReachAnother(where)
  {
    if picked: Row, other: Row :| picked.id != other.id && Matches(where, picked) && EarlierGroup(where, other) {
      var rows := map[picked.id := picked, other.id := other];
      GuardSelects(where, picked.id, other);
      assert other.id in rows && Matches(Guarded(where, picked.id), rows[other.id]);
      assert KeyedById(rows) && rows[picked.id] == picked && !OneRowOf(rows, where, picked.id);
    } else {
      forall rows, id | KeyedById(rows) && id in rows && Matches(where, rows[id]) ensures OneRowOf(rows, where, id) {
        GuardIsOneRow(where, id, rows);
      }
    }
  }

  /** With `id = 2 or id = 1`, a call that read row 1 writes row 2 as well. */
  lemma OrWritesAnotherRow(change: Change, field: Field)
    requires field in change.deltas && change.deltas[field] != 0
    ensures exists where, rows, id: Id, k ::
              && KeyedById(rows) && id in rows && Matches(where, rows[id]) && k in rows && k != id
              && Update(rows, Guarded(where, id), change)[k] != rows[k]
  {
    var one, two := Row(1, map[]), Row(2, map[]);
    var rows := map[1 := one, 2 := two];
    var where := [Clause((row: Row) => row.id == 2, false), Clause((row: Row) => row.id == 1, true)];
    assert where[..1] == [where[0]] && [where[0]][..0] == [];
    assert LastGroup(where, one) && LastGroup([where[0]], two);
    assert EarlierGroup(where, two);
    GuardSelects(where, 1, two);
    assert Bump(two, change).Value(field) == change.deltas[field];
    assert Matches(where, rows[1]) && Update(rows, Guarded(where, 1), change)[2] != rows[2];
  }

  // ------------------------------------------------------------------ the table and its callers

  datatype Change = Change(deltas: map<Field, int>, settings: map<Field, int>)

  function Bump(row: Row, change: Change): Row {
    row.(fields := map f | f in row.fields.Keys + change.settings.Keys + change.deltas.Keys ::
      if f in change.deltas then row.Value(f) + change.deltas[f]
      else if f in change.settings then change.settings[f]
      else row.fields[f])
  }

  /** What an increment is to do to a row: add the deltas, set the other fields given, and touch no more. */
  ghost predicate Moved(before: Row, after: Row, change: Change) {
    && after.id == before.id
    && (forall f :: f in change.deltas ==> f in after.fields && after.Value(f) == before.Value(f) + change.deltas[f])
    && (forall f :: f in change.settings && f !in change.deltas ==>
          f in after.fields && after.fields[f] == change.settings[f])
    && (forall f :: f !in change.settings && f !in change.deltas ==>
          (f in after.fields <==> f in before.fields) && (f in before.fields ==> after.fields[f] == before.fields[f]))
  }

  lemma BumpMoves(row: Row, change: Change)
    ensures Moved(row, Bump(row, change), change)
  {}

  /** `update ... where`: every row the clauses match. */
  function Update(rows: map<Id, Row>, where: seq<Clause>, change: Change): map<Id, Row> {
    map k | k in rows :: if Matches(where, rows[k]) then Bump(rows[k], change) else rows[k]
  }

  predicate Touches(rows: map<Id, Row>, where: seq<Clause>) {
    exists k :: k in rows && Matches(where, rows[k])
  }

  function Touched(rows: map<Id, Row>, where: seq<Clause>): set<Id> {
    set k | k in rows && Matches(where, rows[k])
  }

  datatype Pending =
    | Idle
    | Consuming(row: Row)
    | Incrementing(where: seq<Clause>, change: Change, id: Id)

  /** An increment that wrote: the clauses it was called with, the row it had read, and the rows it wrote. */
  datatype Success = Success(where: seq<Clause>, id: Id, written: set<Id>, change: Change)

  /**
   * `born` keeps each row as it was inserted, `handed` who was given which row by
   * `consumeOne`, `applied` every increment that wrote anything.
   */
  datatype State = State(
    rows: map<Id, Row>,
    born: map<Id, Row>,
    calls: map<Caller, Pending>,
    handed: seq<(Caller, Row)>,
    applied: seq<Success>)
  {
    function Call(c: Caller): Pending {
      if c in calls then calls[c] else Idle
    }
  }

  datatype Step =
    | Insert(row: Row)
    | PickToConsume(caller: Caller, where: seq<Clause>, id: Id)
    | DeletePicked(caller: Caller)
    | PickToIncrement(caller: Caller, where: seq<Clause>, change: Change, id: Id)
    | UpdatePicked(caller: Caller)

  /** Ids are never reused, and the read finds a matching row. */
  ghost predicate Enabled(s: State, step: Step) {
    match step
    case Insert(row) => row.id !in s.born
    case PickToConsume(c, where, id) => s.Call(c).Idle? && id in s.rows && Matches(where, s.rows[id])
    case DeletePicked(c) => s.Call(c).Consuming?
    case PickToIncrement(c, where, _, id) =>
      s.Call(c).Idle? && id in s.rows && Matches(where, s.rows[id])
    case UpdatePicked(c) => s.Call(c).Incrementing?
  }

  function Next(s: State, step: Step): State {
    match step
    case Insert(row) => s.(rows := s.rows[row.id := row], born := s.born[row.id := row])
    case PickToConsume(c, _, id) => if id in s.rows then s.(calls := s.calls[c := Consuming(s.rows[id])]) else s
    case DeletePicked(c) =>
      if !s.Call(c).Consuming? then s
      else
        var row := s.Call(c).row;
        s.(rows := s.rows - {row.id}, calls := s.calls[c := Idle],
           handed := if row.id in s.rows then s.handed + [(c, row)] else s.handed)
    case PickToIncrement(c, where, change, id) => s.(calls := s.calls[c := Incrementing(where, change, id)])
    case UpdatePicked(c) =>
      if !s.Call(c).Incrementing? then s
      else
        var call := s.Call(c);
        var guard := Guarded(call.where, call.id);
        s.(rows := Update(s.rows, guard, call.change), calls := s.calls[c := Idle],
           applied := if Touched(s.rows, guard) == {} then s.applied
                      else s.applied + [Success(call.where, call.id, Touched(s.rows, guard), call.change)])
  }

  /** What the call answers at its write: the row it had read, unless nothing was written or that row is gone. */
  function Answer(s: State, c: Caller): Option<Row>
    requires s.Call(c).Incrementing?
  {
    var call := s.Call(c);
    var t := Next(s, UpdatePicked(c));
    if Touches(s.rows, Guarded(call.where, call.id)) && call.id in t.rows then Some(t.rows[call.id]) else None
  }

  const EMPTY := State(map[], map[], map[], [], [])

  ghost predicate Runs(s: State, steps: seq<Step>)
    decreases |steps|
  {
    steps != [] ==> Enabled(s, steps[0]) && Runs(Next(s, steps[0]), steps[1..])
  }

  function Run(s: State, steps: seq<Step>): State
    decreases |steps|
  {
    if steps == [] then s else Run(Next(s, steps[0]), steps[1..])
  }

  // ------------------------------------------------------------------ the invariant

  ghost predicate Keyed(s: State) {
    && (forall k :: k in s.rows ==> s.rows[k].id == k && k in s.born)
    && (forall k :: k in s.born ==> s.born[k].id == k)
    && (forall c :: s.Call(c).Consuming? ==> s.Call(c).row.id in s.born)
    && (forall i :: 0 <= i < |s.applied| ==> Recorded(s.born, s.applied[i]))
  }

  /** Only rows once inserted were written; with AND alone, just the one that was read. */
  ghost predicate Recorded(born: map<Id, Row>, success: Success) {
    && success.written <= born.Keys
    && (AndOnly(success.where) ==> success.written == {success.id})
  }

  /** A row handed out is gone for good, so nobody is handed it again. */
  ghost predicate HandedOnce(s: State) {
    && (forall i :: 0 <= i < |s.handed| ==> s.handed[i].1.id !in s.rows && s.handed[i].1.id in s.born)
    && (forall i, j :: 0 <= i < j < |s.handed| ==> s.handed[i].1.id != s.handed[j].1.id)
  }

  function Total(applied: seq<Success>, id: Id, field: Field): int {
    if applied == [] then 0
    else
      var last := applied[|applied| - 1];
      Total(applied[..|applied| - 1], id, field)
        + (if id in last.written && field in last.change.deltas then last.change.deltas[field] else 0)
  }

  /** No successful call sets this field outright. */
  ghost predicate NeverSet(applied: seq<Success>, field: Field) {
    forall i :: 0 <= i < |applied| ==> field !in applied[i].change.settings
  }

  ghost predicate Balanced(s: State, field: Field) {
    NeverSet(s.applied, field) ==>
      forall k :: k in s.rows && k in s.born ==>
        s.rows[k].Value(field) == s.born[k].Value(field) + Total(s.applied, k, field)
  }

  ghost predicate Inv(s: State) {
    Keyed(s) && HandedOnce(s) && forall field :: Balanced(s, field)
  }

  lemma TotalStep(applied: seq<Success>, success: Success, id: Id, field: Field)
    ensures Total(applied + [success], id, field) == Total(applied, id, field)
              + (if id in success.written && field in success.change.deltas then success.change.deltas[field] else 0)
  {
    assert (applied + [success])[..|applied|] == applied;
  }

  lemma {:induction false} TotalOfUnborn(applied: seq<Success>, id: Id, field: Field)
    requires forall i :: 0 <= i < |applied| ==> id !in applied[i].written
    ensures Total(applied, id, field) == 0
  {
    if applied != [] {
      TotalOfUnborn(applied[..|applied| - 1], id, field);
    }
  }

  // ------------------------------------------------------------------ every step keeps it

  lemma InsertKeeps(s: State, row: Row)
    requires Inv(s) && row.id !in s.born
    ensures Inv(Next(s, Insert(row)))
  {
    var t := Next(s, Insert(row));
    forall c ensures t.Call(c) == s.Call(c) {}
    forall i | 0 <= i < |s.applied| ensures Recorded(t.born, s.applied[i]) && row.id !in s.applied[i].written {
      assert Recorded(s.born, s.applied[i]);
    }
    forall field ensures Balanced(t, field) {
      assert Balanced(s, field);
      TotalOfUnborn(s.applied, row.id, field);
    }
  }

  lemma DeleteKeeps(s: State, c: Caller)
    requires Inv(s) && s.Call(c).Consuming?
    ensures Inv(Next(s, DeletePicked(c)))
  {
    var t := Next(s, DeletePicked(c));
    forall d ensures t.Call(d) == if d == c then Idle else s.Call(d) {}
    assert forall i :: 0 <= i < |s.applied| ==> Recorded(s.born, s.applied[i]);
    forall field ensures Balanced(t, field) {
      assert Balanced(s, field);
    }
  }

  lemma PickKeeps(s: State, t: State, c: Caller)
    requires Inv(s) && t == s.(calls := t.calls)
    requires forall d :: d != c ==> t.Call(d) == s.Call(d)
    requires t.Call(c).Consuming? ==> t.Call(c).row.id in s.born
    ensures Inv(t)
  {
    assert forall i :: 0 <= i < |s.applied| ==> Recorded(s.born, s.applied[i]);
    forall field ensures Balanced(t, field) {
      assert Balanced(s, field);
    }
  }

  /** The guarded update, with AND alone: one row changes, and only if it matches as it is written. */
  lemma UpdateIsOneRow(s: State, where: seq<Clause>, change: Change, id: Id)
    requires Keyed(s) && AndOnly(where)
    ensures var after := Update(s.rows, Guarded(where, id), change);
            && (Touches(s.rows, Guarded(where, id)) <==> id in s.rows && Matches(where, s.rows[id]))
            && after == if id in s.rows && Matches(where, s.rows[id])
                        then s.rows[id := Bump(s.rows[id], change)] else s.rows
  {
    var guard := Guarded(where, id);
    GuardIsOneRow(where, id, s.rows);
    if id in s.rows {
      GuardSelects(where, id, s.rows[id]);
      NoEarlierGroup(where, s.rows[id]);
    }
  }

  lemma UpdateKeeps(s: State, c: Caller)
    requires Inv(s) && s.Call(c).Incrementing?
    ensures Inv(Next(s, UpdatePicked(c)))
  {
    var t := Next(s, UpdatePicked(c));
    var call := s.Call(c);
    var written := Touched(s.rows, Guarded(call.where, call.id));
    forall d ensures t.Call(d) == if d == c then Idle else s.Call(d) {}
    if written != {} {
      var success := Success(call.where, call.id, written, call.change);
      WritesAreRecorded(s, call.where, call.id, call.change);
      forall i | 0 <= i < |t.applied| ensures Recorded(t.born, t.applied[i]) {
        assert i < |s.applied| ==> Recorded(s.born, s.applied[i]);
      }
      forall field ensures Balanced(t, field) {
        assert Balanced(s, field);
        if NeverSet(t.applied, field) {
          BumpBalances(s, t, success, field);
        }
      }
    } else {
      assert forall k :: k in s.rows ==> k !in written;
      assert t.rows == s.rows;
      assert forall i :: 0 <= i < |s.applied| ==> Recorded(s.born, s.applied[i]);
      forall field ensures Balanced(t, field) {
        assert Balanced(s, field);
      }
    }
  }

  lemma WritesAreRecorded(s: State, where: seq<Clause>, id: Id, change: Change)
    requires Keyed(s) && Touched(s.rows, Guarded(where, id)) != {}
    ensures Recorded(s.born, Success(where, id, Touched(s.rows, Guarded(where, id)), change))
  {
    var written := Touched(s.rows, Guarded(where, id));
    GuardIsOneRow(where, id, s.rows);
    assert forall k :: k in written ==> k in s.rows && k in s.born;
    if AndOnly(where) {
      var k :| k in written;
      assert k == id && written == {id};
    }
  }

  lemma BumpBalances(s: State, t: State, success: Success, field: Field)
    requires Balanced(s, field) && t.born == s.born
    requires t.applied == s.applied + [success] && NeverSet(t.applied, field)
    requires t.rows == map k | k in s.rows ::
                         if k in success.written then Bump(s.rows[k], success.change) else s.rows[k]
    ensures Balanced(t, field)
  {
    assert NeverSet(s.applied, field) by {
      forall i | 0 <= i < |s.applied| ensures field !in s.applied[i].change.settings {
        assert t.applied[i] == s.applied[i];
      }
    }
    assert t.applied[|s.applied|] == success;
    forall k | k in t.rows && k in t.born
      ensures t.rows[k].Value(field) == t.born[k].Value(field) + Total(t.applied, k, field)
    {
      TotalStep(s.applied, success, k, field);
    }
  }

  lemma NextKeeps(s: State, step: Step)
    requires Inv(s) && Enabled(s, step)
    ensures Inv(Next(s, step))
  {
    match step
    case Insert(row) => InsertKeeps(s, row);
    case PickToConsume(c, _, _) => PickKeeps(s, Next(s, step), c);
    case DeletePicked(c) => DeleteKeeps(s, c);
    case PickToIncrement(c, _, _, _) => PickKeeps(s, Next(s, step), c);
    case UpdatePicked(c) => UpdateKeeps(s, c);
  }

  lemma {:induction false} RunKeeps(s: State, steps: seq<Step>)
    requires Inv(s) && Runs(s, steps)
    ensures Inv(Run(s, steps))
    decreases |steps|
  {
    if steps != [] {
      NextKeeps(s, steps[0]);
      RunKeeps(Next(s, steps[0]), steps[1..]);
    }
  }

  // ------------------------------------------------------------------ where rows go

  /** A row somebody was given. */
  ghost predicate Gone(s: State, id: Id) {
    exists i :: 0 <= i < |s.handed| && s.handed[i].1.id == id
  }

  /** Every row once inserted is in the table, or was given to somebody. */
  ghost predicate Conserved(s: State) {
    forall id :: id in s.born ==> (id in s.rows <==> !Gone(s, id))
  }

  lemma NextConserves(s: State, step: Step)
    requires Inv(s) && Conserved(s) && Enabled(s, step)
    ensures Conserved(Next(s, step))
  {
    var t := Next(s, step);
    NextKeeps(s, step);
    assert forall i :: 0 <= i < |s.handed| ==> t.handed[i] == s.handed[i];
    forall id | id in t.born ensures id in t.rows <==> !Gone(t, id) {
      if Gone(s, id) {
        var i :| 0 <= i < |s.handed| && s.handed[i].1.id == id;
        assert t.handed[i].1.id == id;
      } else if id in t.born && id !in t.rows && step.DeletePicked? {
        assert t.handed[|s.handed|].1.id == id;
      }
    }
  }

  lemma {:induction false} RunConserves(s: State, steps: seq<Step>)
    requires Inv(s) && Conserved(s) && Runs(s, steps)
    ensures Conserved(Run(s, steps))
    decreases |steps|
  {
    if steps != [] {
      NextKeeps(s, steps[0]);
      NextConserves(s, steps[0]);
      RunConserves(Next(s, steps[0]), steps[1..]);
    }
  }

  lemma {:induction false} BornByInsert(s: State, steps: seq<Step>, row: Row)
    requires Inv(s) && Runs(s, steps)
    ensures var t := Run(s, steps);
            (row.id in t.born && t.born[row.id] == row)
              <==> Insert(row) in steps || (row.id in s.born && s.born[row.id] == row)
    decreases |steps|
  {
    if steps != [] {
      NextKeeps(s, steps[0]);
      BornByInsert(Next(s, steps[0]), steps[1..], row);
      assert Insert(row) in steps <==> Insert(row) == steps[0] || Insert(row) in steps[1..];
    }
  }

  // ------------------------------------------------------------------ the theorems

  /** Every row inserted is still in the table or was handed to somebody, and never both; no other row is there. */
  lemma RowsAreConserved(steps: seq<Step>, row: Row)
    requires Runs(EMPTY, steps)
    ensures var s := Run(EMPTY, steps);
            if Insert(row) in steps
            then row.id in s.born && s.born[row.id] == row && (row.id in s.rows <==> !Gone(s, row.id))
            else row.id in s.rows || Gone(s, row.id) ==> row.id in s.born && Insert(s.born[row.id]) in steps
  {
    EmptyInv();
    RunKeeps(EMPTY, steps);
    RunConserves(EMPTY, steps);
    BornByInsert(EMPTY, steps, row);
    var s := Run(EMPTY, steps);
    if row.id in s.born {
      BornByInsert(EMPTY, steps, s.born[row.id]);
    }
  }

  lemma {:induction false} RunsThen(s: State, a: seq<Step>, b: seq<Step>)
    ensures Runs(s, a + b) <==> Runs(s, a) && Runs(Run(s, a), b)
    ensures Run(s, a + b) == Run(Run(s, a), b)
    decreases |a|
  {
    if a == [] {
      assert a + b == b;
    } else {
      assert (a + b)[1..] == a[1..] + b;
      RunsThen(Next(s, a[0]), a[1..], b);
    }
  }

  predicate Of(c: Caller, step: Step) {
    !step.Insert? && step.caller == c
  }

  lemma OthersLeaveTheRead(s: State, c: Caller, step: Step)
    requires !Of(c, step)
    ensures Next(s, step).Call(c) == s.Call(c)
  {}

  /** What a caller read is not forgotten while others run. */
  lemma {:induction false} ReadIsRemembered(s: State, c: Caller, steps: seq<Step>)
    requires Runs(s, steps) && forall i :: 0 <= i < |steps| ==> !Of(c, steps[i])
    ensures Run(s, steps).Call(c) == s.Call(c)
    decreases |steps|
  {
    if steps != [] {
      OthersLeaveTheRead(s, c, steps[0]);
      ReadIsRemembered(Next(s, steps[0]), c, steps[1..]);
    }
  }

  /** What happens between the read and the write of one call: anything, by others. */
  lemma BetweenReadAndWrite(before: seq<Step>, pick: Step, between: seq<Step>, c: Caller)
    requires Runs(EMPTY, before + [pick] + between) && Of(c, pick)
    requires forall i :: 0 <= i < |between| ==> !Of(c, between[i])
    ensures var s, t := Run(EMPTY, before), Run(EMPTY, before + [pick] + between);
            && Inv(s) && Inv(t) && Conserved(t)
            && Enabled(s, pick) && t.Call(c) == Next(s, pick).Call(c)
  {
    EmptyInv();
    RunsThen(EMPTY, before + [pick], between);
    RunsThen(EMPTY, before, [pick]);
    RunKeeps(EMPTY, before);
    RunKeeps(EMPTY, before + [pick] + between);
    RunConserves(EMPTY, before + [pick] + between);
    var s := Run(EMPTY, before);
    assert [pick][1..] == [] && Run(s, [pick]) == Next(s, pick);
    ReadIsRemembered(Next(s, pick), c, between);
  }

  /** A caller that read a row is handed it as it was read, unless another was handed it in the meantime. */
  lemma HandedUnlessTaken(before: seq<Step>, c: Caller, where: seq<Clause>, id: Id, between: seq<Step>)
    requires Runs(EMPTY, before + [PickToConsume(c, where, id)] + between)
    requires forall i :: 0 <= i < |between| ==> !Of(c, between[i])
    ensures var s := Run(EMPTY, before);
            var t := Run(EMPTY, before + [PickToConsume(c, where, id)] + between);
            var u := Next(t, DeletePicked(c));
            && Enabled(t, DeletePicked(c)) && id in s.rows && Matches(where, s.rows[id])
            && u.handed == (if Gone(t, id) then t.handed else t.handed + [(c, s.rows[id])])
            && u.rows == t.rows - {id}
  {
    BetweenReadAndWrite(before, PickToConsume(c, where, id), between, c);
    StillBorn(before, PickToConsume(c, where, id), between, id);
  }

  lemma {:induction false} BornStays(s: State, steps: seq<Step>, id: Id)
    requires id in s.born
    ensures id in Run(s, steps).born
    decreases |steps|
  {
    if steps != [] {
      BornStays(Next(s, steps[0]), steps[1..], id);
    }
  }

  lemma StillBorn(before: seq<Step>, pick: Step, between: seq<Step>, id: Id)
    requires id in Run(EMPTY, before).born
    ensures id in Run(EMPTY, before + [pick] + between).born
  {
    assert before + [pick] + between == before + ([pick] + between);
    RunsThen(EMPTY, before, [pick] + between);
    BornStays(Run(EMPTY, before), [pick] + between, id);
  }

  /** However reads and deletes interleave, no row is handed to two callers. */
  lemma EachRowIsConsumedOnce(steps: seq<Step>, i: nat, j: nat)
    requires Runs(EMPTY, steps) && i < j < |Run(EMPTY, steps).handed|
    ensures Run(EMPTY, steps).handed[i].1.id != Run(EMPTY, steps).handed[j].1.id
  {
    EmptyInv();
    RunKeeps(EMPTY, steps);
  }

  /**
   * A counter nobody sets outright is its first value plus the delta of every increment
   * that wrote its row; an increment with AND alone wrote just the row it had read.
   */
  lemma CountersAddUp(steps: seq<Step>, id: Id, field: Field)
    requires Runs(EMPTY, steps) && id in Run(EMPTY, steps).rows
    requires NeverSet(Run(EMPTY, steps).applied, field)
    ensures var s := Run(EMPTY, steps);
            && id in s.born && s.rows[id].Value(field) == s.born[id].Value(field) + Total(s.applied, id, field)
            && forall i :: 0 <= i < |s.applied| && AndOnly(s.applied[i].where) ==>
                 s.applied[i].written == {s.applied[i].id}
  {
    EmptyInv();
    RunKeeps(EMPTY, steps);
    var s := Run(EMPTY, steps);
    assert Balanced(s, field);
    assert forall i :: 0 <= i < |s.applied| ==> Recorded(s.born, s.applied[i]);
  }

  /** A guarded write moves the rows of an earlier conjunction and the one row read, and no other. */
  lemma GuardedWriteMoves(rows: map<Id, Row>, where: seq<Clause>, id: Id, change: Change)
    requires KeyedById(rows)
    ensures var after := Update(rows, Guarded(where, id), change);
            && after.Keys == rows.Keys
            && forall k :: k in rows ==>
                 if EarlierGroup(where, rows[k]) || (k == id && LastGroup(where, rows[k]))
                 then Moved(rows[k], after[k], change) else after[k] == rows[k]
  {
    forall k | k in rows
      ensures Matches(Guarded(where, id), rows[k])
         <==> EarlierGroup(where, rows[k]) || (k == id && LastGroup(where, rows[k]))
      ensures Moved(rows[k], Bump(rows[k], change), change)
    {
      GuardSelects(where, id, rows[k]);
      BumpMoves(rows[k], change);
    }
  }

  /** What the write of an increment leaves, of one that read row `id` by `where`. */
  ghost predicate WrittenUnderGuard(s: State, c: Caller, where: seq<Clause>, change: Change, id: Id)
    requires s.Call(c).Incrementing?
  {
    var t := Next(s, UpdatePicked(c));
    && t.Call(c).Idle? && t.rows.Keys == s.rows.Keys
    && (forall k :: k in s.rows ==>
          if EarlierGroup(where, s.rows[k]) || (k == id && LastGroup(where, s.rows[k]))
          then Moved(s.rows[k], t.rows[k], change) else t.rows[k] == s.rows[k])
    && (Answer(s, c).Some? ==> id in t.rows && Answer(s, c).value == t.rows[id])
  }

  lemma WritesUnderGuard(s: State, c: Caller, where: seq<Clause>, change: Change, id: Id)
    requires Inv(s) && s.Call(c) == Incrementing(where, change, id)
    ensures WrittenUnderGuard(s, c, where, change, id)
  {
    GuardedWriteMoves(s.rows, where, id, change);
  }

  /** The write changes the row that was read and answers it, or there is none that still matches. */
  ghost predicate WrittenIfItMatches(s: State, c: Caller, where: seq<Clause>, id: Id)
    requires s.Call(c).Incrementing?
  {
    var t := Next(s, UpdatePicked(c));
    if id in s.rows && Matches(where, s.rows[id])
    then id in t.rows && t.rows == s.rows[id := t.rows[id]] && Answer(s, c).Some?
    else t.rows == s.rows && Answer(s, c).None?
  }

  lemma WritesTheRowRead(s: State, c: Caller, where: seq<Clause>, change: Change, id: Id)
    requires Inv(s) && s.Call(c) == Incrementing(where, change, id) && AndOnly(where)
    ensures WrittenIfItMatches(s, c, where, id)
  {
    UpdateIsOneRow(s, where, change, id);
  }

  /**
   * At its write an increment moves every row that meets an earlier conjunction, and the
   * row it had read if that still meets the last one, and leaves all others, whatever
   * others did since the read. With AND alone that is the row it had read, still there and
   * still matching, or none; and then it answers a row exactly when it wrote it.
   */
  lemma IncrementWritesUnderItsGuard(before: seq<Step>, c: Caller, where: seq<Clause>, change: Change, id: Id,
                                     between: seq<Step>)
    requires Runs(EMPTY, before + [PickToIncrement(c, where, change, id)] + between)
    requires forall i :: 0 <= i < |between| ==> !Of(c, between[i])
    ensures var s := Run(EMPTY, before + [PickToIncrement(c, where, change, id)] + between);
            && Enabled(s, UpdatePicked(c)) && WrittenUnderGuard(s, c, where, change, id)
            && (AndOnly(where) ==> WrittenIfItMatches(s, c, where, id))
  {
    IncrementWaits(before, c, where, change, id, between);
    AtTheWrite(Run(EMPTY, before + [PickToIncrement(c, where, change, id)] + between), c, where, change, id);
  }

  lemma IncrementWaits(before: seq<Step>, c: Caller, where: seq<Clause>, change: Change, id: Id, between: seq<Step>)
    requires Runs(EMPTY, before + [PickToIncrement(c, where, change, id)] + between)
    requires forall i :: 0 <= i < |between| ==> !Of(c, between[i])
    ensures var s := Run(EMPTY, before + [PickToIncrement(c, where, change, id)] + between);
            Inv(s) && s.Call(c) == Incrementing(where, change, id)
  {
    BetweenReadAndWrite(before, PickToIncrement(c, where, change, id), between, c);
  }

  lemma AtTheWrite(s: State, c: Caller, where: seq<Clause>, change: Change, id: Id)
    requires Inv(s) && s.Call(c) == Incrementing(where, change, id)
    ensures Enabled(s, UpdatePicked(c)) && WrittenUnderGuard(s, c, where, change, id)
    ensures AndOnly(where) ==> WrittenIfItMatches(s, c, where, id)
  {
    WritesUnderGuard(s, c, where, change, id);
    if AndOnly(where) {
      WritesTheRowRead(s, c, where, change, id);
    }
  }

  lemma EmptyInv()
    ensures Inv(EMPTY)
  {
    forall field ensures Balanced(EMPTY, field) {}
  }

  // ------------------------------------------------------------------ floors

  ghost predicate Above(rows: map<Id, Row>, field: Field, floor: int) {
    forall k :: k in rows ==> rows[k].Value(field) >= floor
  }

  /** The guard rules out any row the change would take below the floor. */
  ghost predicate Guards(where: seq<Clause>, change: Change, field: Field, floor: int) {
    forall row :: Matches(where, row) && row.Value(field) >= floor ==> Bump(row, change).Value(field) >= floor
  }

  ghost predicate KeepsAbove(step: Step, field: Field, floor: int) {
    && (step.Insert? ==> step.row.Value(field) >= floor)
    && (step.PickToIncrement? ==> Guards(step.where, step.change, field, floor))
  }

  ghost predicate PendingAbove(s: State, field: Field, floor: int) {
    forall c :: s.Call(c).Incrementing? ==> Guards(s.Call(c).where, s.Call(c).change, field, floor)
  }

  lemma {:induction false} GuardedNeverGoesBelow(s: State, steps: seq<Step>, field: Field, floor: int)
    requires Inv(s) && Runs(s, steps)
    requires forall i :: 0 <= i < |steps| ==> KeepsAbove(steps[i], field, floor)
    requires Above(s.rows, field, floor) && PendingAbove(s, field, floor)
    ensures Above(Run(s, steps).rows, field, floor)
    decreases |steps|
  {
    if steps != [] {
      StepStaysAbove(s, steps[0], field, floor);
      NextKeeps(s, steps[0]);
      GuardedNeverGoesBelow(Next(s, steps[0]), steps[1..], field, floor);
    }
  }

  lemma StepStaysAbove(s: State, step: Step, field: Field, floor: int)
    requires Inv(s) && Enabled(s, step) && KeepsAbove(step, field, floor)
    requires Above(s.rows, field, floor) && PendingAbove(s, field, floor)
    ensures Above(Next(s, step).rows, field, floor) && PendingAbove(Next(s, step), field, floor)
  {
    var t := Next(s, step);
    if step.UpdatePicked? {
      var call := s.Call(step.caller);
      forall k | k in s.rows && Matches(Guarded(call.where, call.id), s.rows[k])
        ensures Matches(call.where, s.rows[k])
      {
        GuardSelects(call.where, call.id, s.rows[k]);
      }
    }
    forall c | t.Call(c).Incrementing? ensures Guards(t.Call(c).where, t.Call(c).change, field, floor) {
      assert t.Call(c) == s.Call(c) || step.PickToIncrement?;
    }
  }

  /** The usual guard: spend only where at least that much is left. */
  lemma SpendingGuardKeepsNonNegative(before: seq<Clause>, field: Field, cost: int, settings: map<Field, int>)
    requires AndOnly(before) && cost >= 0
    ensures Guards(before + [Clause((row: Row) => row.Value(field) >= cost, false)],
                   Change(map[field := -cost], settings), field, 0)
  {
    var where := before + [Clause((row: Row) => row.Value(field) >= cost, false)];
    var spend: map<Field, int> := map[field := -cost];
    forall row | Matches(where, row) && row.Value(field) >= 0
      ensures Bump(row, Change(spend, settings)).Value(field) >= 0
    {
      NoEarlierGroup(where, row);
      assert LastGroup(where, row);
      assert where[|where| - 1].holds(row);
    }
  }

  // ------------------------------------------------------------------ the class

  /** The table, and the two calls run from read to write with nobody in between. */
  class Table {
    var rows: map<Id, Row>

    ghost predicate Valid()
      reads this
    {
      forall k :: k in rows ==> rows[k].id == k
    }

    constructor ()
      ensures Valid() && rows == map[]
    {
      rows := map[];
    }

    /** `limit(1).first()`: some matching row, or none when there is none. */
    method First(where: seq<Clause>) returns (row: Option<Row>)
      requires Valid()
      ensures row.Some? ==> row.value.id in rows && rows[row.value.id] == row.value && Matches(where, row.value)
      ensures row.None? <==> !Touches(rows, where)
    {
      row := None;
      var remaining := rows.Keys;
      while remaining != {}
        invariant remaining <= rows.Keys
        invariant forall k :: k in rows && k !in remaining ==> !Matches(where, rows[k])
        decreases remaining
      {
        var k :| k in remaining;
        if Matches(where, rows[k]) {
          return Some(rows[k]);
        }
        remaining := remaining - {k};
      }
    }

    method ConsumeOne(where: seq<Clause>) returns (row: Option<Row>)
      requires Valid()
      modifies this
      ensures Valid()
      ensures row.Some? <==> Touches(old(rows), where)
      ensures row.Some? ==> Matches(where, row.value) && row.value.id in old(rows)
                            && old(rows)[row.value.id] == row.value && rows == old(rows) - {row.value.id}
      ensures row.None? ==> rows == old(rows)
    {
      row := First(where);
      if row.Some? {
        rows := rows - {row.value.id};
      }
    }

    method IncrementOne(where: seq<Clause>, change: Change) returns (row: Option<Row>)
      requires Valid()
      modifies this
      ensures Valid()
      ensures row.Some? <==> Touches(old(rows), where)
      ensures row.Some? ==> row.value.id in old(rows) && Matches(where, old(rows)[row.value.id])
                            && row.value == Bump(old(rows)[row.value.id], change)
                            && Moved(old(rows)[row.value.id], row.value, change)
                            && rows == Update(old(rows), Guarded(where, row.value.id), change)
      ensures row.Some? && NoEarlierGroupCanHold(where) ==> rows == old(rows)[row.value.id := row.value]
      ensures row.None? ==> rows == old(rows)
    {
      row := First(where);
      if row.Some? {
        var id := row.value.id;
        GuardSelects(where, id, rows[id]);
        BumpMoves(rows[id], change);
        if NoEarlierGroupCanHold(where) {
          GuardIsOneRow(where, id, rows);
        }
        rows := Update(rows, Guarded(where, id), change);
        row := Some(rows[id]);
      }
    }
  }
}
