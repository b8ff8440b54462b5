/**
 * What a key resolves to after it was bound again: which factory built it, from what, and
 * when a value handed to `instance` is the answer.
 */
module Rebinding {
  import opened Options
  import opened Container

  // ------------------------------------------------------------------ the factory behind a value

  /** A built value comes from the factory that is bound to its key. */
  predicate MadeBy(app: App, key: Key, value: Value) {
    Raw(value).Built? ==> key in app.bindings && Raw(value).factory == app.bindings[key].factory
  }

  predicate SharedCurrent(app: App, key: Key) {
    key in app.instances ==> MadeBy(app, key, app.instances[key])
  }

  predicate ScopedCurrent(app: App, request: Request, key: Key) {
    request in app.scopes && key in app.scopes[request] ==> MadeBy(app, key, app.scopes[request][key])
  }

  /** Nothing held is of an earlier binding, except where `stale` allows it. */
  ghost predicate Current(app: App, stale: (Request, Key) -> bool) {
    && (forall key :: SharedCurrent(app, key))
    && (forall request, key :: stale(request, key) || ScopedCurrent(app, request, key))
  }

  ghost predicate SameScope(a: App, b: App, request: Request) {
    (request in a.scopes <==> request in b.scopes) && (request in a.scopes ==> a.scopes[request] == b.scopes[request])
  }

  ghost predicate AddsOnlyBuilt(a: App, b: App, key: Key) {
    if key in a.instances then key in b.instances && b.instances[key] == a.instances[key]
    else key in b.instances ==> Raw(b.instances[key]).Built?
  }

  /** Resolving adds built values to what is shared and to the running request, and changes no other. */
  ghost predicate OnlyAdds(a: App, b: App) {
    && (forall key :: AddsOnlyBuilt(a, b, key))
    && (forall request :: request != a.request ==> SameScope(a, b, request))
  }

  lemma OnlyAddsTwice(a: App, b: App, c: App)
    requires OnlyAdds(a, b) && OnlyAdds(b, c) && a.request == b.request
    ensures OnlyAdds(a, c)
  {
    forall key ensures AddsOnlyBuilt(a, c, key) {
      assert AddsOnlyBuilt(a, b, key) && AddsOnlyBuilt(b, c, key);
    }
    forall request | request != a.request ensures SameScope(a, c, request) {
      assert SameScope(a, b, request) && SameScope(b, c, request);
    }
  }

  lemma CurrentElsewhere(app: App, building: seq<Key>, stale: (Request, Key) -> bool)
    requires Current(app, stale)
    ensures Current(app.(building := building), stale)
  {
    var moved := app.(building := building);
    forall key ensures SharedCurrent(moved, key) {
      assert SharedCurrent(app, key);
    }
    forall request, key | !stale(request, key) ensures ScopedCurrent(moved, request, key) {
      assert ScopedCurrent(app, request, key);
    }
  }

  /** Keeping what was built for a key that was not shared when it was asked for. */
  lemma KeepIsCurrent(app: App, built: App, key: Key, value: Value, stale: (Request, Key) -> bool)
    requires Current(built, stale) && OnlyAdds(app, built) && built.request == app.request
    requires key !in app.instances && key in built.bindings
    requires Raw(value).Built? && Raw(value).factory == built.bindings[key].factory
    ensures var kept := Keep(built, key, built.bindings[key], value); Current(kept, stale) && OnlyAdds(app, kept)
  {
    var kept := Keep(built, key, built.bindings[key], value);
    forall other ensures SharedCurrent(kept, other) && AddsOnlyBuilt(app, kept, other) {
      assert SharedCurrent(built, other) && AddsOnlyBuilt(app, built, other);
    }
    forall request, other | !stale(request, other) ensures ScopedCurrent(kept, request, other) {
      assert ScopedCurrent(built, request, other);
      assert stale(app.request, other) || ScopedCurrent(built, app.request, other);
    }
    forall request | request != app.request ensures SameScope(app, kept, request) {
      assert SameScope(app, built, request);
    }
  }

  /** What a factory makes is by that factory, under its origin. */
  lemma FreshIsBy(app: App, key: Key, factory: Factory, origin: Origin, depth: nat)
    ensures var outcome := Fresh(app, key, factory, origin, depth).1;
            outcome.Resolved? ==> Raw(outcome.value).Built? && Raw(outcome.value).factory == factory
                                  && Raw(outcome.value).origin == origin
  {
    var (made, parts) := MakeAll(Push(app, key), factory.needs, depth);
    if parts.Some? {
      FinishLayers(Built(origin, factory, app.request, parts.value), Pop(made).Extenders(key));
    }
  }

  /** The key's own factory is run, and what it makes is kept. */
  predicate RunsFactory(app: App, key: Key) {
    && app.Contextual(key).None? && key !in app.instances && key in app.bindings
    && !(app.bindings[key].scoped && key in app.Scope())
  }

  lemma OwnFactoryIsCurrent(app: App, key: Key, depth: nat, stale: (Request, Key) -> bool)
    requires Inv(app) && RunsFactory(app, key)
    requires var built := Fresh(app, key, app.bindings[key].factory, FromBinding(key), depth).0;
             Current(built, stale) && OnlyAdds(app, built)
    ensures var after := Make(app, key, depth + 1).0; Current(after, stale) && OnlyAdds(app, after)
  {
    var factory := app.bindings[key].factory;
    FreshKeeps(app, key, factory, FromBinding(key), depth);
    FreshIsBy(app, key, factory, FromBinding(key), depth);
    var (built, outcome) := Fresh(app, key, factory, FromBinding(key), depth);
    if outcome.Resolved? {
      KeepIsCurrent(app, built, key, outcome.value, stale);
    }
  }

  /** Resolving keeps all that is held current, and only adds to it. */
  lemma {:induction false} MakeIsCurrent(app: App, key: Key, depth: nat, stale: (Request, Key) -> bool)
    requires Inv(app) && Current(app, stale)
    ensures Current(Make(app, key, depth).0, stale) && OnlyAdds(app, Make(app, key, depth).0)
    decreases depth, 0, 0
  {
    if depth > 0 {
      if app.Contextual(key).Some? {
        FreshIsCurrent(app, key, app.Contextual(key).value,
                       FromContext(app.building[|app.building| - 1], key), depth - 1, stale);
      } else if RunsFactory(app, key) {
        FreshIsCurrent(app, key, app.bindings[key].factory, FromBinding(key), depth - 1, stale);
        OwnFactoryIsCurrent(app, key, depth - 1, stale);
      }
    }
  }

  lemma {:induction false} FreshIsCurrent(app: App, key: Key, factory: Factory, origin: Origin, depth: nat,
                                          stale: (Request, Key) -> bool)
    requires Inv(app) && Current(app, stale)
    ensures var built := Fresh(app, key, factory, origin, depth).0; Current(built, stale) && OnlyAdds(app, built)
    decreases depth, 2, 0
  {
    var pushed := Push(app, key);
    PushKeeps(app, pushed.building);
    CurrentElsewhere(app, pushed.building, stale);
    MakeAllIsCurrent(pushed, factory.needs, depth, stale);
    var made := MakeAll(pushed, factory.needs, depth).0;
    CurrentElsewhere(made, Pop(made).building, stale);
    assert OnlyAdds(pushed, made) && OnlyAdds(app, Pop(made)) by {
      forall other ensures AddsOnlyBuilt(app, Pop(made), other) {
        assert AddsOnlyBuilt(pushed, made, other);
      }
      forall request | request != app.request ensures SameScope(app, Pop(made), request) {
        assert SameScope(pushed, made, request);
      }
    }
  }

  lemma {:induction false} MakeAllIsCurrent(app: App, needs: seq<Key>, depth: nat, stale: (Request, Key) -> bool)
    requires Inv(app) && Current(app, stale)
    ensures var made := MakeAll(app, needs, depth).0; Current(made, stale) && OnlyAdds(app, made)
    decreases depth, 1, |needs|
  {
    if needs != [] {
      MakeIsCurrent(app, needs[0], depth, stale);
      MakeKeeps(app, needs[0], depth);
      var (made, first) := Make(app, needs[0], depth);
      if first.Resolved? {
        MakeAllIsCurrent(made, needs[1..], depth, stale);
        OnlyAddsTwice(app, made, MakeAll(made, needs[1..], depth).0);
      }
    }
  }

  /** Whose value a make returns: the contextual factory's, the one held in the scope, or a current one. */
  lemma MakeReturns(app: App, key: Key, depth: nat, stale: (Request, Key) -> bool)
    requires Inv(app) && Current(app, stale)
    ensures var outcome := Make(app, key, depth).1;
            outcome.Resolved? ==>
              if app.Contextual(key).Some? then
                Raw(outcome.value).Built? && Raw(outcome.value).factory == app.Contextual(key).value
                && Raw(outcome.value).origin == FromContext(app.building[|app.building| - 1], key)
              else if HeldInScope(app, key) then outcome.value == app.Scope()[key]
              else if key in app.instances then outcome.value == app.instances[key]
              else Raw(outcome.value).Built? && MadeBy(app, key, outcome.value)
                   && Raw(outcome.value).origin == FromBinding(key)
  {
    if depth > 0 {
      if app.Contextual(key).Some? {
        FreshIsBy(app, key, app.Contextual(key).value, FromContext(app.building[|app.building| - 1], key), depth - 1);
      } else if key in app.bindings {
        FreshIsBy(app, key, app.bindings[key].factory, FromBinding(key), depth - 1);
      }
    }
  }

  // ------------------------------------------------------------------ what a run says

  function LastBinding(steps: seq<Step>, key: Key): Option<Binding> {
    if steps == [] then None
    else
      var last := steps[|steps| - 1];
      if last.DoRecord? && last.key == key then Some(last.binding) else LastBinding(steps[..|steps| - 1], key)
  }

  /** The request that is running after these steps. */
  function RequestAt(steps: seq<Step>): Request {
    if steps == [] then None
    else
      var last := steps[|steps| - 1];
      if last.Switch? then last.request else RequestAt(steps[..|steps| - 1])
  }

  /** The request in which the key was bound last. */
  function BoundIn(steps: seq<Step>, key: Key): Request {
    if steps == [] then None
    else
      var front, last := steps[..|steps| - 1], steps[|steps| - 1];
      if last.DoRecord? && last.key == key then RequestAt(front) else BoundIn(front, key)
  }

  predicate Discards(step: Step, key: Key) {
    || (step.DoRecord? && step.key == key) || (step.DoInstance? && step.key == key)
    || (step.DoForgetInstance? && step.key == key) || step.DoForgetInstances?
  }

  ghost predicate NeverDiscards(steps: seq<Step>, key: Key) {
    forall i :: 0 <= i < |steps| ==> !Discards(steps[i], key)
  }

  ghost predicate HandedAt(steps: seq<Step>, i: int, key: Key, token: nat) {
    0 <= i < |steps| && steps[i] == DoInstance(key, token) && NeverDiscards(steps[i + 1..], key)
  }

  /** The value was handed over for the key, and nothing has discarded it since. */
  ghost predicate Handed(steps: seq<Step>, key: Key, token: nat) {
    exists i :: HandedAt(steps, i, key, token)
  }

  lemma HandedBefore(steps: seq<Step>, last: Step, i: int, key: Key, token: nat)
    requires HandedAt(steps + [last], i, key, token) && i < |steps|
    ensures HandedAt(steps, i, key, token) && !Discards(last, key)
  {
    var later, tail := (steps + [last])[i + 1..], steps[i + 1..];
    assert later == tail + [last] && later[|tail|] == last;
    forall j | 0 <= j < |tail| ensures !Discards(tail[j], key) {
      assert tail[j] == later[j];
    }
  }

  lemma HandedStill(steps: seq<Step>, last: Step, i: int, key: Key, token: nat)
    requires HandedAt(steps, i, key, token) && !Discards(last, key)
    ensures HandedAt(steps + [last], i, key, token)
  {
    assert (steps + [last])[i + 1..] == steps[i + 1..] + [last];
  }

  lemma HandedThen(steps: seq<Step>, last: Step, key: Key, token: nat)
    ensures Handed(steps + [last], key, token)
       <==> last == DoInstance(key, token) || (Handed(steps, key, token) && !Discards(last, key))
  {
    var all := steps + [last];
    if Handed(all, key, token) {
      var i: int :| HandedAt(all, i, key, token);
      if i < |steps| {
        HandedBefore(steps, last, i, key, token);
      }
    }
    if last == DoInstance(key, token) {
      assert all[|steps| + 1..] == [] && HandedAt(all, |steps|, key, token);
    } else if Handed(steps, key, token) && !Discards(last, key) {
      var i: int :| HandedAt(steps, i, key, token);
      HandedStill(steps, last, i, key, token);
    }
  }

  // ------------------------------------------------------------------ runs

  ghost predicate HoldsHanded(app: App, key: Key, token: nat) {
    key in app.instances && Raw(app.instances[key]) == Given(token)
  }

  ghost predicate BoundAsSaid(app: App, steps: seq<Step>, key: Key) {
    LastBinding(steps, key) == if key in app.bindings then Some(app.bindings[key]) else None
  }

  /** A value of a request may be of an earlier binding only if the key was bound again in another. */
  ghost function Elsewhere(steps: seq<Step>): (Request, Key) -> bool {
    (request: Request, key: Key) => BoundIn(steps, key) != request
  }

  /** The state after a run, as its steps tell it. */
  ghost predicate AsSaid(app: App, steps: seq<Step>) {
    && Inv(app) && app.building == [] && app.request == RequestAt(steps) && Current(app, Elsewhere(steps))
    && (forall key :: BoundAsSaid(app, steps, key))
    && (forall key, token :: HoldsHanded(app, key, token) <==> Handed(steps, key, token))
  }

  lemma SaidThen(steps: seq<Step>, last: Step, key: Key)
    ensures LastBinding(steps + [last], key)
         == if last.DoRecord? && last.key == key then Some(last.binding) else LastBinding(steps, key)
    ensures RequestAt(steps + [last]) == if last.Switch? then last.request else RequestAt(steps)
    ensures BoundIn(steps + [last], key)
         == if last.DoRecord? && last.key == key then RequestAt(steps) else BoundIn(steps, key)
  {
    assert (steps + [last])[..|steps|] == steps;
  }

  lemma StaleSpreads(app: App, stale: (Request, Key) -> bool, more: (Request, Key) -> bool)
    requires Current(app, stale) && forall request, key :: stale(request, key) ==> more(request, key)
    ensures Current(app, more)
  {
    forall request, key | !more(request, key) ensures ScopedCurrent(app, request, key) {
      assert !stale(request, key) && (stale(request, key) || ScopedCurrent(app, request, key));
    }
  }

  /** What the step does to what was handed over. */
  ghost predicate HandsAsSaid(app: App, after: App, last: Step, key: Key, token: nat) {
    HoldsHanded(after, key, token)
    <==> last == DoInstance(key, token) || (HoldsHanded(app, key, token) && !Discards(last, key))
  }

  /** The parts of the account that a step moves. */
  lemma SaidTogether(app: App, after: App, steps: seq<Step>, last: Step)
    requires AsSaid(app, steps) && Inv(after) && after.building == []
    requires after.request == (if last.Switch? then last.request else app.request)
    requires after.bindings == if last.DoRecord? then app.bindings[last.key := last.binding] else app.bindings
    requires Current(after, Elsewhere(steps + [last]))
    requires forall key, token :: HandsAsSaid(app, after, last, key, token)
    ensures AsSaid(after, steps + [last])
  {
    SaidThen(steps, last, 0);
    forall key ensures BoundAsSaid(after, steps + [last], key) {
      SaidThen(steps, last, key);
      assert BoundAsSaid(app, steps, key);
    }
    forall key, token ensures HoldsHanded(after, key, token) <==> Handed(steps + [last], key, token) {
      HandedThen(steps, last, key, token);
      assert HandsAsSaid(app, after, last, key, token);
    }
  }

  lemma SameElsewhere(steps: seq<Step>, last: Step)
    requires !last.DoRecord?
    ensures forall request, key :: Elsewhere(steps)(request, key) ==> Elsewhere(steps + [last])(request, key)
  {
    forall request: Request, key: Key
      ensures Elsewhere(steps)(request, key) ==> Elsewhere(steps + [last])(request, key)
    {
      SaidThen(steps, last, key);
    }
  }

  lemma QuietHands(app: App, last: Step, depth: nat, key: Key, token: nat)
    requires !last.DoRecord? && !last.DoMake?
    ensures HandsAsSaid(app, Take(app, last, depth), last, key, token)
  {
    if last.DoInstance? {
      FinishLayers(Given(last.token), app.Extenders(last.key));
    }
  }

  lemma QuietIsCurrent(app: App, last: Step, depth: nat, stale: (Request, Key) -> bool)
    requires Current(app, stale) && !last.DoRecord? && !last.DoMake?
    ensures Current(Take(app, last, depth), stale)
  {
    var after := Take(app, last, depth);
    if last.DoInstance? {
      FinishLayers(Given(last.token), app.Extenders(last.key));
    }
    forall key ensures SharedCurrent(after, key) {
      assert SharedCurrent(app, key);
    }
    forall request, key | !stale(request, key) ensures ScopedCurrent(after, request, key) {
      assert stale(request, key) || ScopedCurrent(app, request, key);
    }
  }

  /** Steps that bind nothing. */
  lemma QuietAsSaid(app: App, steps: seq<Step>, last: Step, depth: nat)
    requires AsSaid(app, steps) && !last.DoRecord? && !last.DoMake?
    ensures AsSaid(Take(app, last, depth), steps + [last])
  {
    var after := Take(app, last, depth);
    TakeKeeps(app, last, depth);
    QuietIsCurrent(app, last, depth, Elsewhere(steps));
    SameElsewhere(steps, last);
    StaleSpreads(after, Elsewhere(steps), Elsewhere(steps + [last]));
    forall key, token ensures HandsAsSaid(app, after, last, key, token) {
      QuietHands(app, last, depth, key, token);
    }
    SaidTogether(app, after, steps, last);
  }

  lemma OnlyAddsHandsNothing(app: App, after: App, key: Key, token: nat)
    requires OnlyAdds(app, after)
    ensures HoldsHanded(after, key, token) <==> HoldsHanded(app, key, token)
  {
    assert AddsOnlyBuilt(app, after, key);
  }

  lemma MakeAsSaid(app: App, steps: seq<Step>, key: Key, depth: nat)
    requires AsSaid(app, steps)
    ensures AsSaid(Take(app, DoMake(key), depth), steps + [DoMake(key)])
  {
    var last := DoMake(key);
    var after := Take(app, last, depth);
    MakeKeeps(app, key, depth);
    MakeIsCurrent(app, key, depth, Elsewhere(steps));
    SameElsewhere(steps, last);
    StaleSpreads(after, Elsewhere(steps), Elsewhere(steps + [last]));
    forall other, token ensures HandsAsSaid(app, after, last, other, token) {
      OnlyAddsHandsNothing(app, after, other, token);
    }
    SaidTogether(app, after, steps, last);
  }

  /** What is held of the key by the running request is dropped; every other request keeps what it has. */
  lemma ReboundIsCurrent(app: App, key: Key, binding: Binding, stale: (Request, Key) -> bool,
                         more: (Request, Key) -> bool)
    requires Inv(app) && Current(app, stale)
    requires forall request, other :: more(request, other) == if other == key then request != app.request
                                                                else stale(request, other)
    ensures Inv(Rebound(app, key, binding)) && Current(Rebound(app, key, binding), more)
  {
    var rebound := Rebound(app, key, binding);
    FewerKeeps(app, rebound);
    forall other ensures SharedCurrent(rebound, other) {
      assert SharedCurrent(app, other);
    }
    forall request, other | !more(request, other) ensures ScopedCurrent(rebound, request, other) {
      if other != key {
        assert stale(request, other) || ScopedCurrent(app, request, other);
        assert stale(app.request, other) || ScopedCurrent(app, app.request, other);
      }
    }
  }

  lemma RecordAsSaid(app: App, steps: seq<Step>, key: Key, binding: Binding, depth: nat)
    requires AsSaid(app, steps)
    ensures AsSaid(Take(app, DoRecord(key, binding), depth), steps + [DoRecord(key, binding)])
  {
    var last := DoRecord(key, binding);
    var stale, more := Elsewhere(steps), Elsewhere(steps + [last]);
    forall request: Request, other: Key
      ensures more(request, other) == if other == key then request != app.request else stale(request, other)
    {
      SaidThen(steps, last, other);
    }
    ReboundIsCurrent(app, key, binding, stale, more);
    var rebound := Rebound(app, key, binding);
    forall other, token ensures HandsAsSaid(app, rebound, last, other, token) {}
    var after := Take(app, last, depth);
    if after != rebound {
      MakeKeeps(rebound, key, depth);
      MakeIsCurrent(rebound, key, depth, more);
      forall other, token ensures HandsAsSaid(app, after, last, other, token) {
        OnlyAddsHandsNothing(rebound, after, other, token);
      }
    }
    SaidTogether(app, after, steps, last);
  }

  lemma {:induction false} RunAsSaid(steps: seq<Step>, depth: nat)
    ensures AsSaid(Run(NEW_APP, steps, depth), steps)
    decreases |steps|
  {
    if steps == [] {
      NewAsSaid();
    } else {
      var front, last := steps[..|steps| - 1], steps[|steps| - 1];
      assert steps == front + [last];
      RunAsSaid(front, depth);
      RunThen(NEW_APP, front, last, depth);
      var app := Run(NEW_APP, front, depth);
      match last
      case DoRecord(key, binding) => RecordAsSaid(app, front, key, binding, depth);
      case DoMake(key) => MakeAsSaid(app, front, key, depth);
      case _ => QuietAsSaid(app, front, last, depth);
    }
  }

  lemma NewAsSaid()
    ensures AsSaid(NEW_APP, [])
  {
    forall key ensures SharedRight(NEW_APP, key) && SharedCurrent(NEW_APP, key) && BoundAsSaid(NEW_APP, [], key) {}
    forall request, key ensures ScopedRight(NEW_APP, request, key) && ScopedCurrent(NEW_APP, request, key) {}
  }

  lemma {:induction false} RunThen(app: App, steps: seq<Step>, last: Step, depth: nat)
    ensures Run(app, steps + [last], depth) == Take(Run(app, steps, depth), last, depth)
    decreases |steps|
  {
    if steps == [] {
      assert [] + [last] == [last] && [last][1..] == [];
      assert Run(Take(app, last, depth), [], depth) == Take(app, last, depth);
    } else {
      assert (steps + [last])[1..] == steps[1..] + [last];
      RunThen(Take(app, steps[0], depth), steps[1..], last, depth);
    }
  }

  // ------------------------------------------------------------------ the theorems

  /**
   * In every run, a key resolves to the value handed over for it if nothing has discarded
   * that since, and otherwise to one its own binding built: by the factory bound last,
   * unless the key is scoped and was bound last in another request than the running one.
   */
  lemma ResolvesByTheLastBinding(steps: seq<Step>, depth: nat, key: Key)
    ensures var app := Run(NEW_APP, steps, depth);
            var outcome := Make(app, key, depth).1;
            outcome.Resolved? ==>
              var value := Raw(outcome.value);
              && (forall token :: value == Given(token) <==> Handed(steps, key, token))
              && (value.Built? ==>
                   var bound := LastBinding(steps, key);
                   && bound.Some? && value.origin == FromBinding(key)
                   && (value.factory == bound.value.factory
                       || (bound.value.scoped && BoundIn(steps, key) != RequestAt(steps))))
    ensures depth > 0 && (exists token :: Handed(steps, key, token)) ==>
              Make(Run(NEW_APP, steps, depth), key, depth).1.Resolved?
  {
    var app := Run(NEW_APP, steps, depth);
    RunAsSaid(steps, depth);
    MakeReturns(app, key, depth, Elsewhere(steps));
    assert SharedRight(app, key) && ScopedRight(app, app.request, key) && SharedCurrent(app, key);
    assert BoundAsSaid(app, steps, key);
    assert Elsewhere(steps)(app.request, key) || ScopedCurrent(app, app.request, key);
    var outcome := Make(app, key, depth).1;
    assert forall token :: Handed(steps, key, token) ==> HoldsHanded(app, key, token);
    if outcome.Resolved? {
      forall token ensures Raw(outcome.value) == Given(token) <==> Handed(steps, key, token) {
        assert HoldsHanded(app, key, token) <==> Handed(steps, key, token);
      }
    }
  }

  /** A request that is not running still holds a scoped value of another factory. */
  predicate HeldElsewhere(app: App, key: Key, binding: Binding, request: Request) {
    && binding.scoped && request != app.request
    && request in app.scopes && key in app.scopes[request]
    && Raw(app.scopes[request][key]).Built? && Raw(app.scopes[request][key]).factory != binding.factory
  }

  /** What is held of the key right after it was bound: of the new factory, or what other requests had. */
  lemma RecordedHolds(app: App, steps: seq<Step>, key: Key, binding: Binding, depth: nat)
    requires AsSaid(app, steps)
    ensures var recorded := Record(app, key, binding, depth);
            && recorded.bindings == app.bindings[key := binding] && recorded.building == [] && Inv(recorded)
            && SharedCurrent(recorded, key) && ScopedCurrent(recorded, app.request, key)
            && (key in recorded.instances ==> Raw(recorded.instances[key]).Built? && !binding.scoped)
            && (forall r :: r != app.request ==> SameScope(app, recorded, r))
  {
    var stale := Elsewhere(steps);
    var more := (r: Request, k: Key) => if k == key then r != app.request else stale(r, k);
    var rebound, recorded := Rebound(app, key, binding), Record(app, key, binding, depth);
    ReboundIsCurrent(app, key, binding, stale, more);
    if recorded != rebound {
      MakeKeeps(rebound, key, depth);
      MakeIsCurrent(rebound, key, depth, more);
      assert AddsOnlyBuilt(rebound, recorded, key);
      forall r | r != app.request ensures SameScope(app, recorded, r) {
        assert SameScope(rebound, recorded, r);
      }
    }
    assert SharedCurrent(recorded, key) && (more(app.request, key) || ScopedCurrent(recorded, app.request, key));
  }

  /**
   * After any run, a key bound again resolves, in whatever request, to a value of the new
   * factory, exactly when that request does not hold an earlier scoped value from elsewhere.
   */
  lemma RebindingReachesExactly(steps: seq<Step>, key: Key, binding: Binding, request: Request, depth: nat)
    ensures var app := Run(NEW_APP, steps, depth);
            var after := Record(app, key, binding, depth).(request := request);
            var outcome := Make(after, key, depth).1;
            outcome.Resolved? ==>
              Raw(outcome.value).Built?
              && (Raw(outcome.value).factory == binding.factory <==> !HeldElsewhere(app, key, binding, request))
  {
    var app := Run(NEW_APP, steps, depth);
    var recorded := Record(app, key, binding, depth);
    RunAsSaid(steps, depth);
    RecordedHolds(app, steps, key, binding, depth);
    ReboundResolves(app, recorded, key, binding, request, depth);
  }

  lemma ReboundResolves(app: App, recorded: App, key: Key, binding: Binding, request: Request, depth: nat)
    requires Inv(recorded) && recorded.bindings == app.bindings[key := binding] && recorded.building == []
    requires SharedCurrent(recorded, key) && ScopedCurrent(recorded, app.request, key)
    requires key in recorded.instances ==> Raw(recorded.instances[key]).Built? && !binding.scoped
    requires forall r :: r != app.request ==> SameScope(app, recorded, r)
    ensures var outcome := Make(recorded.(request := request), key, depth).1;
            outcome.Resolved? ==>
              Raw(outcome.value).Built?
              && (Raw(outcome.value).factory == binding.factory <==> !HeldElsewhere(app, key, binding, request))
  {
    var after := recorded.(request := request);
    assert ScopedRight(recorded, request, key);
    assert request != app.request ==> SameScope(app, recorded, request);
    if depth > 0 {
      FreshIsBy(after, key, binding.factory, FromBinding(key), depth - 1);
    }
  }
}
