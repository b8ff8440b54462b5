/**
 * What the container hands out is put together: each built value is one its factory made
 * from what the keys it needs resolved to, in order, a contextual binding taking the place
 * of the need's own where one is given; and whatever can be put together is.
 */
module Assembly {
  import opened Options
  import opened Container

  // ------------------------------------------------------------------ sound: values are put together

  /** A contextual value was built for this very consumer. */
  predicate ForConsumer(part: Value, consumer: Key) {
    Raw(part).Built? && Raw(part).origin.FromContext? ==> Raw(part).origin.consumer == consumer
  }

  /** Made by a factory that does not throw from one part for each key it needs, and they likewise. */
  predicate Assembled(value: Value, key: Key)
    decreases value
  {
    match value
    case Given(_) => true
    case Wrapped(_, inner) => Assembled(inner, key)
    case Built(origin, factory, _, parts) =>
      && origin.key == key && !factory.throws && |parts| == |factory.needs|
      && forall i :: 0 <= i < |parts| ==> Assembled(parts[i], factory.needs[i]) && ForConsumer(parts[i], key)
  }

  ghost predicate SharedAssembled(app: App, key: Key) {
    key in app.instances ==> Assembled(app.instances[key], key) && OwnValue(app.instances[key], key)
  }

  ghost predicate ScopedAssembled(app: App, request: Request, key: Key) {
    request in app.scopes && key in app.scopes[request] ==>
      Assembled(app.scopes[request][key], key) && OwnValue(app.scopes[request][key], key)
  }

  ghost predicate AllAssembled(app: App) {
    && (forall key :: SharedAssembled(app, key))
    && (forall request, key :: ScopedAssembled(app, request, key))
  }

  /** What was asked for: put together, by the contextual binding of the consumer on top if there is one. */
  predicate Answers(app: App, key: Key, value: Value) {
    && Assembled(value, key)
    && if app.Contextual(key).Some? then
         && Raw(value).Built? && Raw(value).factory == app.Contextual(key).value
         && Raw(value).origin == FromContext(app.building[|app.building| - 1], key)
       else OwnValue(value, key)
  }

  lemma {:induction false} FinishAssembles(value: Value, extenders: seq<nat>, key: Key)
    requires Assembled(value, key)
    ensures Assembled(Finish(value, extenders), key)
  {
    if extenders != [] {
      FinishAssembles(value, extenders[..|extenders| - 1], key);
    }
  }

  lemma AssembledAnywhere(app: App, building: seq<Key>)
    requires AllAssembled(app)
    ensures AllAssembled(app.(building := building))
  {
    var moved := app.(building := building);
    forall key ensures SharedAssembled(moved, key) {
      assert SharedAssembled(app, key);
    }
    forall request, key ensures ScopedAssembled(moved, request, key) {
      assert ScopedAssembled(app, request, key);
    }
  }

  lemma KeepAssembles(app: App, key: Key, binding: Binding, value: Value)
    requires AllAssembled(app) && Assembled(value, key) && OwnValue(value, key)
    ensures AllAssembled(Keep(app, key, binding, value))
  {
    var kept := Keep(app, key, binding, value);
    forall other ensures SharedAssembled(kept, other) {
      assert SharedAssembled(app, other);
    }
    forall request, other ensures ScopedAssembled(kept, request, other) {
      assert ScopedAssembled(app, request, other) && ScopedAssembled(app, app.request, other);
    }
  }

  lemma {:induction false} MakeAssembles(app: App, key: Key, depth: nat)
    requires AllAssembled(app)
    ensures var (after, outcome) := Make(app, key, depth);
            && AllAssembled(after) && after.contextual == app.contextual && after.building == app.building
            && (outcome.Resolved? ==> Answers(app, key, outcome.value))
    decreases depth, 0, 0
  {
    if depth > 0 {
      if app.Contextual(key).Some? {
        FreshAssembles(app, key, app.Contextual(key).value,
                       FromContext(app.building[|app.building| - 1], key), depth - 1);
      } else if key in app.instances {
        assert SharedAssembled(app, key);
      } else if key in app.bindings {
        assert ScopedAssembled(app, app.request, key);
        var factory := app.bindings[key].factory;
        FreshAssembles(app, key, factory, FromBinding(key), depth - 1);
        var (built, outcome) := Fresh(app, key, factory, FromBinding(key), depth - 1);
        if outcome.Resolved? {
          KeepAssembles(built, key, app.bindings[key], outcome.value);
        }
      }
    }
  }

  lemma {:induction false} FreshAssembles(app: App, key: Key, factory: Factory, origin: Origin, depth: nat)
    requires AllAssembled(app) && origin.key == key
    ensures var (after, outcome) := Fresh(app, key, factory, origin, depth);
            && AllAssembled(after) && after.contextual == app.contextual && after.building == app.building
            && (outcome.Resolved? ==>
                 && Raw(outcome.value).Built? && Raw(outcome.value).factory == factory
                 && Raw(outcome.value).origin == origin && Assembled(outcome.value, key)
                 && PartsAnswer(Push(app, key), factory.needs, Raw(outcome.value).parts))
    decreases depth, 2, 0
  {
    var pushed := Push(app, key);
    AssembledAnywhere(app, pushed.building);
    MakeAllAssembles(pushed, factory.needs, depth);
    var (made, parts) := MakeAll(pushed, factory.needs, depth);
    assert (app.building + [key])[..|app.building|] == app.building;
    AssembledAnywhere(made, app.building);
    if parts.Some? && !factory.throws {
      var value := Built(origin, factory, app.request, parts.value);
      PutTogether(pushed, key, value);
      FinishAssembles(value, Pop(made).Extenders(key), key);
      FinishLayers(value, Pop(made).Extenders(key));
    }
  }

  /** One part for each need, each what the need resolves to under this consumer. */
  ghost predicate PartsAnswer(app: App, needs: seq<Key>, parts: seq<Value>) {
    |parts| == |needs| && forall i :: 0 <= i < |parts| ==> Answers(app, needs[i], parts[i])
  }

  lemma PutTogether(app: App, key: Key, value: Value)
    requires value.Built? && value.origin.key == key && !value.factory.throws
    requires app.building != [] && app.building[|app.building| - 1] == key
    requires PartsAnswer(app, value.factory.needs, value.parts)
    ensures Assembled(value, key)
  {
    forall i | 0 <= i < |value.parts|
      ensures Assembled(value.parts[i], value.factory.needs[i]) && ForConsumer(value.parts[i], key)
    {
      assert Answers(app, value.factory.needs[i], value.parts[i]);
    }
  }

  lemma {:induction false} MakeAllAssembles(app: App, needs: seq<Key>, depth: nat)
    requires AllAssembled(app)
    ensures var (after, parts) := MakeAll(app, needs, depth);
            && AllAssembled(after) && after.contextual == app.contextual && after.building == app.building
            && (parts.Some? ==> PartsAnswer(app, needs, parts.value))
    decreases depth, 1, |needs|
  {
    if needs != [] {
      MakeAssembles(app, needs[0], depth);
      var (made, first) := Make(app, needs[0], depth);
      if first.Resolved? {
        MakeAllAssembles(made, needs[1..], depth);
        var (after, rest) := MakeAll(made, needs[1..], depth);
        if rest.Some? {
          OnePartMore(app, made, needs, first.value, rest.value);
        }
      }
    }
  }

  lemma OnePartMore(app: App, made: App, needs: seq<Key>, first: Value, rest: seq<Value>)
    requires needs != [] && made.contextual == app.contextual && made.building == app.building
    requires Answers(app, needs[0], first) && PartsAnswer(made, needs[1..], rest)
    ensures PartsAnswer(app, needs, [first] + rest)
  {
    var parts := [first] + rest;
    forall i | 0 <= i < |parts| ensures Answers(app, needs[i], parts[i]) {
      if i > 0 {
        assert Answers(made, needs[1..][i - 1], rest[i - 1]);
      }
    }
  }

  lemma ReboundAssembles(app: App, key: Key, binding: Binding)
    requires AllAssembled(app)
    ensures AllAssembled(Rebound(app, key, binding))
  {
    var rebound := Rebound(app, key, binding);
    forall other ensures SharedAssembled(rebound, other) {
      assert SharedAssembled(app, other);
    }
    forall request, other ensures ScopedAssembled(rebound, request, other) {
      assert ScopedAssembled(app, request, other) && ScopedAssembled(app, app.request, other);
    }
  }

  lemma QuietAssembles(app: App, step: Step, depth: nat)
    requires AllAssembled(app) && !step.DoMake? && !step.DoRecord?
    ensures AllAssembled(Take(app, step, depth))
  {
    var after := Take(app, step, depth);
    if step.DoInstance? {
      FinishAssembles(Given(step.token), app.Extenders(step.key), step.key);
      FinishLayers(Given(step.token), app.Extenders(step.key));
    }
    forall key ensures SharedAssembled(after, key) {
      assert SharedAssembled(app, key);
    }
    forall request, key ensures ScopedAssembled(after, request, key) {
      assert ScopedAssembled(app, request, key) && ScopedAssembled(app, app.request, key);
    }
  }

  lemma StepAssembles(app: App, step: Step, depth: nat)
    requires AllAssembled(app)
    ensures AllAssembled(Take(app, step, depth))
  {
    match step
    case DoMake(key) => MakeAssembles(app, key, depth);
    case DoRecord(key, binding) =>
      ReboundAssembles(app, key, binding);
      MakeAssembles(Rebound(app, key, binding), key, depth);
    case _ => QuietAssembles(app, step, depth);
  }

  lemma {:induction false} RunAssembles(app: App, steps: seq<Step>, depth: nat)
    requires AllAssembled(app)
    ensures AllAssembled(Run(app, steps, depth))
    decreases |steps|
  {
    if steps != [] {
      StepAssembles(app, steps[0], depth);
      RunAssembles(Take(app, steps[0], depth), steps[1..], depth);
    }
  }

  /** In every run, whatever a key resolves to was handed over or is put together from its needs. */
  lemma ResolvedIsAssembled(steps: seq<Step>, depth: nat, key: Key)
    ensures var outcome := Make(Run(NEW_APP, steps, depth), key, depth).1;
            outcome.Resolved? ==> Assembled(outcome.value, key)
  {
    forall other ensures SharedAssembled(NEW_APP, other) {}
    forall request, other ensures ScopedAssembled(NEW_APP, request, other) {}
    RunAssembles(NEW_APP, steps, depth);
    MakeAssembles(Run(NEW_APP, steps, depth), key, depth);
  }

  /** Building a key, a need is served by a contextual factory exactly when one is given for that key. */
  lemma ContextDecides(app: App, key: Key, factory: Factory, origin: Origin, depth: nat)
    requires AllAssembled(app) && origin.key == key
    ensures var outcome := Fresh(app, key, factory, origin, depth).1;
            outcome.Resolved? ==>
              Raw(outcome.value).Built? &&
              var parts := Raw(outcome.value).parts;
              && |parts| == |factory.needs|
              && forall i :: 0 <= i < |parts| ==>
                   var at := (key, factory.needs[i]);
                   if at in app.contextual then
                     Raw(parts[i]).Built? && Raw(parts[i]).factory == app.contextual[at]
                     && Raw(parts[i]).origin == FromContext(key, factory.needs[i])
                   else OwnValue(parts[i], factory.needs[i])
  {
    FreshAssembles(app, key, factory, origin, depth);
    var outcome := Fresh(app, key, factory, origin, depth).1;
    if outcome.Resolved? {
      var parts := Raw(outcome.value).parts;
      forall i | 0 <= i < |parts| ensures Answers(Push(app, key), factory.needs[i], parts[i]) {}
    }
  }

  // ------------------------------------------------------------------ complete: what can be put together is

  /** The key can be resolved from what is bound and held, for this consumer and in so many frames. */
  predicate Buildable(app: App, key: Key, consumer: Option<Key>, depth: nat)
    decreases depth, 0
  {
    && depth > 0
    && if consumer.Some? && (consumer.value, key) in app.contextual then
         Runnable(app, key, app.contextual[(consumer.value, key)], depth - 1)
       else
         || key in app.instances
         || (key in app.bindings
             && ((app.bindings[key].scoped && key in app.Scope())
                 || Runnable(app, key, app.bindings[key].factory, depth - 1)))
  }

  predicate Runnable(app: App, key: Key, factory: Factory, depth: nat)
    decreases depth, 1
  {
    !factory.throws && forall i :: 0 <= i < |factory.needs| ==> Buildable(app, factory.needs[i], Some(key), depth)
  }

  /** The same bindings, and nothing held that is not held any more. */
  ghost predicate Grows(a: App, b: App) {
    && b.bindings == a.bindings && b.contextual == a.contextual && b.request == a.request
    && a.instances.Keys <= b.instances.Keys && a.Scope().Keys <= b.Scope().Keys
  }

  lemma {:induction false} BuildableStays(a: App, b: App, key: Key, consumer: Option<Key>, depth: nat)
    requires Grows(a, b) && Buildable(a, key, consumer, depth)
    ensures Buildable(b, key, consumer, depth)
    decreases depth, 0
  {
    if consumer.Some? && (consumer.value, key) in a.contextual {
      RunnableStays(a, b, key, a.contextual[(consumer.value, key)], depth - 1);
    } else if key !in a.instances && !(a.bindings[key].scoped && key in a.Scope()) {
      RunnableStays(a, b, key, a.bindings[key].factory, depth - 1);
    } else {
      assert key in b.instances || key in b.Scope();
    }
  }

  lemma {:induction false} RunnableStays(a: App, b: App, key: Key, factory: Factory, depth: nat)
    requires Grows(a, b) && Runnable(a, key, factory, depth)
    ensures Runnable(b, key, factory, depth)
    decreases depth, 1
  {
    forall i | 0 <= i < |factory.needs| ensures Buildable(b, factory.needs[i], Some(key), depth) {
      BuildableStays(a, b, factory.needs[i], Some(key), depth);
    }
  }

  lemma {:induction false} MakeGrows(app: App, key: Key, depth: nat)
    ensures Grows(app, Make(app, key, depth).0)
    decreases depth, 0, 0
  {
    if depth > 0 {
      if app.Contextual(key).Some? {
        FreshGrows(app, key, app.Contextual(key).value,
                   FromContext(app.building[|app.building| - 1], key), depth - 1);
      } else if key in app.bindings {
        FreshGrows(app, key, app.bindings[key].factory, FromBinding(key), depth - 1);
      }
    }
  }

  lemma {:induction false} FreshGrows(app: App, key: Key, factory: Factory, origin: Origin, depth: nat)
    ensures Grows(app, Fresh(app, key, factory, origin, depth).0)
    decreases depth, 2, 0
  {
    MakeAllGrows(Push(app, key), factory.needs, depth);
  }

  lemma {:induction false} MakeAllGrows(app: App, needs: seq<Key>, depth: nat)
    ensures Grows(app, MakeAll(app, needs, depth).0)
    decreases depth, 1, |needs|
  {
    if needs != [] {
      MakeGrows(app, needs[0], depth);
      MakeAllGrows(Make(app, needs[0], depth).0, needs[1..], depth);
    }
  }

  function Top(app: App): Option<Key> {
    if app.building == [] then None else Some(app.building[|app.building| - 1])
  }

  /** Whatever can be built in the frames that are left is, from any state. */
  lemma {:induction false} BuildableIsMade(app: App, key: Key, depth: nat)
    requires Buildable(app, key, Top(app), depth)
    ensures Make(app, key, depth).1.Resolved?
    decreases depth, 0, 0
  {
    if app.Contextual(key).Some? {
      RunnableIsMade(app, key, app.Contextual(key).value,
                     FromContext(app.building[|app.building| - 1], key), depth - 1);
    } else if key !in app.instances && !(app.bindings[key].scoped && key in app.Scope()) {
      RunnableIsMade(app, key, app.bindings[key].factory, FromBinding(key), depth - 1);
    }
  }

  lemma {:induction false} RunnableIsMade(app: App, key: Key, factory: Factory, origin: Origin, depth: nat)
    requires Runnable(app, key, factory, depth)
    ensures Fresh(app, key, factory, origin, depth).1.Resolved?
    decreases depth, 2, 0
  {
    var pushed := Push(app, key);
    forall i | 0 <= i < |factory.needs| ensures Buildable(pushed, factory.needs[i], Top(pushed), depth) {
      BuildableStays(app, pushed, factory.needs[i], Some(key), depth);
    }
    AllBuildableAreMade(pushed, factory.needs, depth);
  }

  lemma {:induction false} AllBuildableAreMade(app: App, needs: seq<Key>, depth: nat)
    requires forall i :: 0 <= i < |needs| ==> Buildable(app, needs[i], Top(app), depth)
    ensures MakeAll(app, needs, depth).1.Some?
    decreases depth, 1, |needs|
  {
    if needs != [] {
      BuildableIsMade(app, needs[0], depth);
      MakeGrows(app, needs[0], depth);
      MakeRestoresBuilding(app, needs[0], depth);
      var made := Make(app, needs[0], depth).0;
      forall i | 0 <= i < |needs[1..]| ensures Buildable(made, needs[1..][i], Top(made), depth) {
        BuildableStays(app, made, needs[i + 1], Top(app), depth);
      }
      AllBuildableAreMade(made, needs[1..], depth);
    }
  }
}
