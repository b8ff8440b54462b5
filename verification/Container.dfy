/**
 * The service container: bindings, shared instances, extenders, contextual bindings and
 * request scopes. A factory is the list of keys it resolves and whether it then throws;
 * factories may be cyclic, since a call stack that runs out is a throw like any other.
 */
module Container {
  import opened Options

  type Key = nat
  type Request = Option<nat>

  /** Which binding built a value: a key's own, or the one given for a consumer. */
  datatype Origin = FromBinding(key: Key) | FromContext(consumer: Key, key: Key)

  /**
   * `Built` remembers its origin, the factory, the request it was built in and what from;
   * `Given` is a value handed to `instance`; `Wrapped` is the result of one extender.
   */
  datatype Value =
    | Built(origin: Origin, factory: Factory, request: Request, parts: seq<Value>)
    | Given(token: nat)
    | Wrapped(extender: nat, inner: Value)

  /** Factories are functions, each itself: `id` tells apart two that resolve the same keys. */
  datatype Factory = Factory(id: nat, needs: seq<Key>, throws: bool)
  datatype Binding = Binding(factory: Factory, shared: bool, scoped: bool)
  datatype Outcome = Resolved(value: Value) | Threw

  datatype App = App(
    bindings: map<Key, Binding>,
    instances: map<Key, Value>,
    extenders: map<Key, seq<nat>>,
    contextual: map<(Key, Key), Factory>,
    scopes: map<Request, map<Key, Value>>,
    watched: set<Key>,
    building: seq<Key>,
    request: Request)
  {
    function Extenders(key: Key): seq<nat> {
      if key in extenders then extenders[key] else []
    }

    /** The scope of the request that is running, or the one outside any request. */
    function Scope(): map<Key, Value> {
      if request in scopes then scopes[request] else map[]
    }

    predicate Bound(key: Key) {
      key in bindings || key in instances
    }

    /** The factory given for this key to whatever is being built right now. */
    function Contextual(key: Key): Option<Factory> {
      if building != [] && (building[|building| - 1], key) in contextual
      then Some(contextual[(building[|building| - 1], key)]) else None
    }
  }

  const NEW_APP := App(map[], map[], map[], map[], map[], {}, [], None)

  // ------------------------------------------------------------------ values

  /** Every extender in registration order, the first one innermost. */
  function Finish(value: Value, extenders: seq<nat>): Value {
    if extenders == [] then value
    else Wrapped(extenders[|extenders| - 1], Finish(value, extenders[..|extenders| - 1]))
  }

  function Layers(value: Value): seq<nat> {
    if value.Wrapped? then Layers(value.inner) + [value.extender] else []
  }

  function Raw(value: Value): Value {
    if value.Wrapped? then Raw(value.inner) else value
  }

  // ------------------------------------------------------------------ make

  /** Resolve a key with `depth` frames of stack left. */
  function Make(app: App, key: Key, depth: nat): (App, Outcome)
    decreases depth, 0, 0
  {
    if depth == 0 then (app, Threw)
    else if app.Contextual(key).Some? then
      Fresh(app, key, app.Contextual(key).value, FromContext(app.building[|app.building| - 1], key), depth - 1)
    else if key in app.instances then (app, Resolved(app.instances[key]))
    else if key !in app.bindings then (app, Threw)
    else if app.bindings[key].scoped && key in app.Scope() then (app, Resolved(app.Scope()[key]))
    else
      var (built, outcome) := Fresh(app, key, app.bindings[key].factory, FromBinding(key), depth - 1);
      if outcome.Threw? then (built, Threw)
      else (Keep(built, key, app.bindings[key], outcome.value), outcome)
  }

  /** Where a fresh value is kept, if anywhere. */
  function Keep(app: App, key: Key, binding: Binding, value: Value): App {
    if binding.scoped then app.(scopes := app.scopes[app.request := app.Scope()[key := value]])
    else if binding.shared then app.(instances := app.instances[key := value])
    else app
  }

  function Push(app: App, key: Key): App {
    app.(building := app.building + [key])
  }

  function Pop(app: App): App {
    if app.building == [] then app else app.(building := app.building[..|app.building| - 1])
  }

  /** Run a factory with its key on the building stack; popped again whatever happens. */
  function Fresh(app: App, key: Key, factory: Factory, origin: Origin, depth: nat): (App, Outcome)
    decreases depth, 2, 0
  {
    var (made, parts) := MakeAll(Push(app, key), factory.needs, depth);
    var popped := Pop(made);
    if parts.None? || factory.throws then (popped, Threw)
    else (popped, Resolved(Finish(Built(origin, factory, app.request, parts.value), popped.Extenders(key))))
  }

  function MakeAll(app: App, needs: seq<Key>, depth: nat): (App, Option<seq<Value>>)
    decreases depth, 1, |needs|
  {
    if needs == [] then (app, Some([]))
    else
      var (made, first) := Make(app, needs[0], depth);
      if first.Threw? then (made, None)
      else
        var (all, rest) := MakeAll(made, needs[1..], depth);
        (all, if rest.None? then None else Some([first.value] + rest.value))
  }

  // ------------------------------------------------------------------ the other calls

  /** Bound again, and what was built before is dropped. */
  function Rebound(app: App, key: Key, binding: Binding): App {
    app.(bindings := app.bindings[key := binding],
         instances := app.instances - {key},
         scopes := app.scopes[app.request := app.Scope() - {key}])
  }

  /** `bind`, `singleton`, `scoped`: rebind, and tell whoever watches. */
  function Record(app: App, key: Key, binding: Binding, depth: nat): App {
    var rebound := Rebound(app, key, binding);
    if app.Bound(key) && key in app.watched then Make(rebound, key, depth).0 else rebound
  }

  function Instance(app: App, key: Key, token: nat): App {
    app.(instances := app.instances[key := Finish(Given(token), app.Extenders(key))])
  }

  /** An instance already built is extended in place. */
  function Extend(app: App, key: Key, extender: nat): App {
    app.(extenders := app.extenders[key := app.Extenders(key) + [extender]],
         instances := if key in app.instances then app.instances[key := Wrapped(extender, app.instances[key])]
                      else app.instances)
  }

  function ForgetInstance(app: App, key: Key): App {
    app.(instances := app.instances - {key}, scopes := app.scopes[app.request := app.Scope() - {key}])
  }

  datatype Step =
    | DoRecord(key: Key, binding: Binding)
    | DoInstance(key: Key, token: nat)
    | DoExtend(key: Key, extender: nat)
    | DoWhen(consumer: Key, key: Key, factory: Factory)
    | DoWatch(key: Key)
    | DoMake(key: Key)
    | DoForgetInstance(key: Key)
    | DoForgetInstances
    | DoForgetScoped
    | Switch(request: Request)

  function Take(app: App, step: Step, depth: nat): App {
    match step
    case DoRecord(key, binding) => Record(app, key, binding, depth)
    case DoInstance(key, token) => Instance(app, key, token)
    case DoExtend(key, extender) => Extend(app, key, extender)
    case DoWhen(consumer, key, factory) => app.(contextual := app.contextual[(consumer, key) := factory])
    case DoWatch(key) => app.(watched := app.watched + {key})
    case DoMake(key) => Make(app, key, depth).0
    case DoForgetInstance(key) => ForgetInstance(app, key)
    case DoForgetInstances => app.(instances := map[])
    case DoForgetScoped => app.(scopes := app.scopes[app.request := map[]])
    case Switch(request) => app.(request := request)
  }

  function Run(app: App, steps: seq<Step>, depth: nat): App
    decreases |steps|
  {
    if steps == [] then app else Run(Take(app, steps[0], depth), steps[1..], depth)
  }

  // ------------------------------------------------------------------ the invariant

  /** Built by the key's own binding, or handed over: never by a contextual binding. */
  predicate OwnValue(value: Value, key: Key) {
    Raw(value).Given? || (Raw(value).Built? && Raw(value).origin == FromBinding(key))
  }

  /** A shared instance carries every extender of its key once, in registration order. */
  ghost predicate SharedRight(app: App, key: Key) {
    key in app.instances ==>
      OwnValue(app.instances[key], key) && Layers(app.instances[key]) == app.Extenders(key)
  }

  /**
   * A scoped value was built by the key's binding in the very request that holds it, and
   * carries the extenders registered by then.
   */
  ghost predicate ScopedRight(app: App, request: Request, key: Key) {
    request in app.scopes && key in app.scopes[request] ==>
      var value := app.scopes[request][key];
      && Raw(value).Built? && Raw(value).origin == FromBinding(key) && Raw(value).request == request
      && Layers(value) <= app.Extenders(key)
  }

  ghost predicate Inv(app: App) {
    && (forall key :: SharedRight(app, key))
    && (forall request, key :: ScopedRight(app, request, key))
  }

  lemma {:induction false} FinishLayers(value: Value, extenders: seq<nat>)
    requires !value.Wrapped?
    ensures Layers(Finish(value, extenders)) == extenders
    ensures Raw(Finish(value, extenders)) == value
  {
    if extenders != [] {
      FinishLayers(value, extenders[..|extenders| - 1]);
      assert extenders == extenders[..|extenders| - 1] + [extenders[|extenders| - 1]];
    }
  }

  /** What resolving never touches; it shares only values of bindings that are not scoped. */
  ghost predicate SameSettings(a: App, b: App) {
    && a.bindings == b.bindings && a.extenders == b.extenders && a.contextual == b.contextual
    && a.watched == b.watched && a.building == b.building && a.request == b.request
    && (forall key :: key in b.instances && key !in a.instances ==> key in a.bindings && !a.bindings[key].scoped)
  }

  lemma PushKeeps(app: App, building: seq<Key>)
    requires Inv(app)
    ensures Inv(app.(building := building))
  {
    var pushed := app.(building := building);
    forall key ensures SharedRight(pushed, key) {
      assert SharedRight(app, key);
    }
    forall request, key ensures ScopedRight(pushed, request, key) {
      assert ScopedRight(app, request, key);
    }
  }

  lemma KeepKeeps(app: App, key: Key, binding: Binding, value: Value)
    requires Inv(app) && key in app.bindings && app.bindings[key] == binding
    requires Raw(value).Built? && Raw(value).origin == FromBinding(key) && Raw(value).request == app.request
    requires Layers(value) == app.Extenders(key)
    ensures Inv(Keep(app, key, binding, value)) && SameSettings(app, Keep(app, key, binding, value))
  {
    var kept := Keep(app, key, binding, value);
    forall other ensures SharedRight(kept, other) {
      assert SharedRight(app, other);
    }
    forall request, other ensures ScopedRight(kept, request, other) {
      assert ScopedRight(app, request, other);
      assert ScopedRight(app, app.request, other);
    }
  }

  /**
   * Resolving, whether it returns or throws, keeps the invariant and leaves the building
   * stack, the bindings and the extenders as they were.
   */
  lemma {:induction false} MakeKeeps(app: App, key: Key, depth: nat)
    requires Inv(app)
    ensures Inv(Make(app, key, depth).0) && SameSettings(app, Make(app, key, depth).0)
    decreases depth, 0, 0
  {
    if depth > 0 {
      if app.Contextual(key).Some? {
        FreshKeeps(app, key, app.Contextual(key).value, FromContext(app.building[|app.building| - 1], key), depth - 1);
      } else if key !in app.instances && key in app.bindings
                && !(app.bindings[key].scoped && key in app.Scope()) {
        FreshKeeps(app, key, app.bindings[key].factory, FromBinding(key), depth - 1);
        var (built, outcome) := Fresh(app, key, app.bindings[key].factory, FromBinding(key), depth - 1);
        if outcome.Resolved? {
          KeepKeeps(built, key, app.bindings[key], outcome.value);
        }
      }
    }
  }

  lemma {:induction false} FreshKeeps(app: App, key: Key, factory: Factory, origin: Origin, depth: nat)
    requires Inv(app)
    ensures var (built, outcome) := Fresh(app, key, factory, origin, depth);
            && Inv(built) && SameSettings(app, built)
            && (outcome.Resolved? ==>
                 && Raw(outcome.value).Built? && Raw(outcome.value).origin == origin
                 && Raw(outcome.value).request == app.request
                 && Layers(outcome.value) == app.Extenders(key))
    decreases depth, 2, 0
  {
    PushKeeps(app, app.building + [key]);
    MakeAllKeeps(Push(app, key), factory.needs, depth);
    var (made, parts) := MakeAll(Push(app, key), factory.needs, depth);
    assert made.building[..|made.building| - 1] == app.building;
    PushKeeps(made, app.building);
    if parts.Some? {
      FinishLayers(Built(origin, factory, app.request, parts.value), app.Extenders(key));
    }
  }

  lemma {:induction false} MakeAllKeeps(app: App, needs: seq<Key>, depth: nat)
    requires Inv(app)
    ensures Inv(MakeAll(app, needs, depth).0) && SameSettings(app, MakeAll(app, needs, depth).0)
    decreases depth, 1, |needs|
  {
    if needs != [] {
      MakeKeeps(app, needs[0], depth);
      var (made, first) := Make(app, needs[0], depth);
      if first.Resolved? {
        MakeAllKeeps(made, needs[1..], depth);
      }
    }
  }

  /** Dropping entries, or changing nothing the invariant reads, keeps it. */
  lemma FewerKeeps(app: App, fewer: App)
    requires Inv(app) && fewer.extenders == app.extenders
    requires forall key :: key in fewer.instances ==> key in app.instances && fewer.instances[key] == app.instances[key]
    requires forall request, key :: request in fewer.scopes && key in fewer.scopes[request] ==>
               request in app.scopes && key in app.scopes[request]
               && fewer.scopes[request][key] == app.scopes[request][key]
    ensures Inv(fewer)
  {
    forall key ensures SharedRight(fewer, key) {
      assert SharedRight(app, key);
    }
    forall request, key ensures ScopedRight(fewer, request, key) {
      assert ScopedRight(app, request, key);
    }
  }

  lemma InstanceKeeps(app: App, key: Key, token: nat)
    requires Inv(app)
    ensures Inv(Instance(app, key, token))
  {
    var after := Instance(app, key, token);
    FinishLayers(Given(token), app.Extenders(key));
    forall other ensures SharedRight(after, other) {
      assert SharedRight(app, other);
    }
    forall request, other ensures ScopedRight(after, request, other) {
      assert ScopedRight(app, request, other);
    }
  }

  lemma ExtendKeeps(app: App, key: Key, extender: nat)
    requires Inv(app)
    ensures Inv(Extend(app, key, extender))
  {
    var after := Extend(app, key, extender);
    forall other ensures SharedRight(after, other) {
      assert SharedRight(app, other);
    }
    forall request, other ensures ScopedRight(after, request, other) {
      assert ScopedRight(app, request, other);
    }
  }

  lemma TakeKeeps(app: App, step: Step, depth: nat)
    requires Inv(app)
    ensures Inv(Take(app, step, depth))
    ensures Take(app, step, depth).building == app.building
  {
    match step
    case DoRecord(key, binding) =>
      FewerKeeps(app, Rebound(app, key, binding));
      MakeKeeps(Rebound(app, key, binding), key, depth);
    case DoInstance(key, token) => InstanceKeeps(app, key, token);
    case DoExtend(key, extender) => ExtendKeeps(app, key, extender);
    case DoWhen(_, _, _) => FewerKeeps(app, Take(app, step, depth));
    case DoWatch(_) => FewerKeeps(app, Take(app, step, depth));
    case DoMake(key) => MakeKeeps(app, key, depth);
    case DoForgetInstance(_) => FewerKeeps(app, Take(app, step, depth));
    case DoForgetInstances => FewerKeeps(app, Take(app, step, depth));
    case DoForgetScoped => FewerKeeps(app, Take(app, step, depth));
    case Switch(_) => FewerKeeps(app, Take(app, step, depth));
  }

  lemma {:induction false} RunKeeps(app: App, steps: seq<Step>, depth: nat)
    requires Inv(app)
    ensures Inv(Run(app, steps, depth)) && Run(app, steps, depth).building == app.building
    decreases |steps|
  {
    if steps != [] {
      TakeKeeps(app, steps[0], depth);
      RunKeeps(Take(app, steps[0], depth), steps[1..], depth);
    }
  }

  // ------------------------------------------------------------------ the theorems

  /**
   * After any sequence of calls, every shared instance is its raw value with each of its
   * key's extenders applied once, in order; and that raw value came from the key's own
   * binding or from `instance`, never from a contextual binding.
   */
  lemma SharedInstancesCarryEveryExtender(steps: seq<Step>, depth: nat, key: Key)
    requires key in Run(NEW_APP, steps, depth).instances
    ensures var app := Run(NEW_APP, steps, depth);
            var value := app.instances[key];
            && value == Finish(Raw(value), app.Extenders(key))
            && (Raw(value).Built? ==> Raw(value).origin == FromBinding(key))
  {
    RunKeeps(NEW_APP, steps, depth);
    var app := Run(NEW_APP, steps, depth);
    assert SharedRight(app, key);
    PeelAndFinish(app.instances[key]);
  }

  lemma {:induction false} PeelAndFinish(value: Value)
    ensures value == Finish(Raw(value), Layers(value))
  {
    if value.Wrapped? {
      PeelAndFinish(value.inner);
      assert Layers(value)[..|Layers(value)| - 1] == Layers(value.inner);
    }
  }

  /** No `make`, from any state, moves the building stack, not even one that throws out of the middle. */
  lemma {:induction false} MakeRestoresBuilding(app: App, key: Key, depth: nat)
    ensures Make(app, key, depth).0.building == app.building
    decreases depth, 0, 0
  {
    if depth > 0 {
      if app.Contextual(key).Some? {
        FreshRestoresBuilding(app, key, app.Contextual(key).value,
                              FromContext(app.building[|app.building| - 1], key), depth - 1);
      } else if key in app.bindings {
        FreshRestoresBuilding(app, key, app.bindings[key].factory, FromBinding(key), depth - 1);
      }
    }
  }

  lemma {:induction false} FreshRestoresBuilding(app: App, key: Key, factory: Factory, origin: Origin, depth: nat)
    ensures Fresh(app, key, factory, origin, depth).0.building == app.building
    decreases depth, 2, 0
  {
    MakeAllRestoresBuilding(Push(app, key), factory.needs, depth);
    assert (app.building + [key])[..|app.building|] == app.building;
  }

  lemma {:induction false} MakeAllRestoresBuilding(app: App, needs: seq<Key>, depth: nat)
    ensures MakeAll(app, needs, depth).0.building == app.building
    decreases depth, 1, |needs|
  {
    if needs != [] {
      MakeRestoresBuilding(app, needs[0], depth);
      var (made, first) := Make(app, needs[0], depth);
      if first.Resolved? {
        MakeAllRestoresBuilding(made, needs[1..], depth);
      }
    }
  }

  /**
   * What a scoped key resolves to was built by its own binding in the request that is
   * running, whatever other requests did in between.
   */
  lemma ScopedValuesStayInTheirRequest(steps: seq<Step>, depth: nat, key: Key)
    requires var app := Run(NEW_APP, steps, depth);
             key in app.bindings && app.bindings[key].scoped && key !in app.instances
    ensures var app := Run(NEW_APP, steps, depth);
            var outcome := Make(app, key, depth).1;
            outcome.Resolved? ==>
              Raw(outcome.value).Built? && Raw(outcome.value).request == app.request
              && Raw(outcome.value).origin == FromBinding(key)
  {
    RunKeeps(NEW_APP, steps, depth);
    var app := Run(NEW_APP, steps, depth);
    assert ScopedRight(app, app.request, key);
    if depth > 0 && key !in app.Scope() {
      FreshKeeps(app, key, app.bindings[key].factory, FromBinding(key), depth - 1);
    }
  }

  /**
   * `extend` wraps what is bound only for shared instances: a scoped value already built is
   * handed out again without the new extender, for as long as its request holds it.
   */
  lemma ExtendSkipsHeldScopedValues(app: App, key: Key, extender: nat, depth: nat)
    requires Inv(app) && depth > 0 && app.Contextual(key).None?
    requires key in app.bindings && app.bindings[key].scoped && key !in app.instances && key in app.Scope()
    ensures var extended := Extend(app, key, extender);
            var outcome := Make(extended, key, depth).1;
            && outcome == Resolved(app.Scope()[key])
            && Layers(outcome.value) != extended.Extenders(key)
  {
    assert ScopedRight(app, app.request, key);
  }

  /** The key resolves to a scoped value that the running request already holds. */
  predicate HeldInScope(app: App, key: Key) {
    && app.Contextual(key).None? && key !in app.instances
    && key in app.bindings && app.bindings[key].scoped && key in app.Scope()
  }

  /**
   * Whatever a key resolves to after `extend` carries the new extender, with all before
   * it, exactly when it is not a scoped value that the running request already holds.
   */
  lemma ExtendReachesExactlyWhatIsNotHeld(app: App, key: Key, extender: nat, depth: nat)
    requires Inv(app)
    ensures var extended := Extend(app, key, extender);
            var outcome := Make(extended, key, depth).1;
            outcome.Resolved? ==>
              (Layers(outcome.value) == extended.Extenders(key) <==> !HeldInScope(app, key))
  {
    var extended := Extend(app, key, extender);
    ExtendKeeps(app, key, extender);
    assert SharedRight(extended, key);
    if depth > 0 {
      if extended.Contextual(key).Some? {
        var consumer := extended.building[|extended.building| - 1];
        FreshKeeps(extended, key, extended.Contextual(key).value, FromContext(consumer, key), depth - 1);
      } else if HeldInScope(app, key) {
        ExtendSkipsHeldScopedValues(app, key, extender, depth);
      } else if key !in extended.instances && key in extended.bindings {
        FreshKeeps(extended, key, extended.bindings[key].factory, FromBinding(key), depth - 1);
      }
    }
  }

  lemma BareFactory(app: App, key: Key, id: nat, origin: Origin, depth: nat)
    ensures var bare := Factory(id, [], false);
            Fresh(app, key, bare, origin, depth)
            == (app, Resolved(Finish(Built(origin, bare, app.request, []), app.Extenders(key))))
  {
    assert MakeAll(Push(app, key), [], depth) == (Push(app, key), Some([]));
    assert Pop(Push(app, key)) == app;
  }

  /** From a new application: bind a scoped key, resolve it, extend it, and resolve it again. */
  lemma HeldScopedValueIsReached(key: Key, id: nat, extender: nat, depth: nat)
    requires depth > 0
    ensures var app := Run(NEW_APP, [DoRecord(key, Binding(Factory(id, [], false), true, true)), DoMake(key)], depth);
            var extended := Extend(app, key, extender);
            && HeldInScope(app, key) && Make(extended, key, depth).1.Resolved?
            && Layers(Make(extended, key, depth).1.value) == [] && extended.Extenders(key) == [extender]
  {
    var bare := Factory(id, [], false);
    var steps := [DoRecord(key, Binding(bare, true, true)), DoMake(key)];
    var recorded := Take(NEW_APP, steps[0], depth);
    var made := Take(recorded, steps[1], depth);
    assert steps[1..] == [steps[1]] && steps[1..][1..] == [];
    assert Run(made, [], depth) == made && Run(recorded, [steps[1]], depth) == made;
    BareFactory(recorded, key, id, FromBinding(key), depth - 1);
    assert made.Scope() == map[key := Built(FromBinding(key), bare, None, [])];
  }

  /** A shared key resolved once resolves to the same value again, and nothing is rebuilt. */
  lemma SharedResolvesOnce(app: App, key: Key, depth: nat)
    requires Inv(app) && app.Contextual(key).None?
    requires key in app.bindings && app.bindings[key].shared
    ensures var (after, outcome) := Make(app, key, depth);
            outcome.Resolved? ==> Make(after, key, depth) == (after, outcome)
  {
    MakeKeeps(app, key, depth);
    if depth > 0 && key !in app.instances && !(app.bindings[key].scoped && key in app.Scope()) {
      FreshKeeps(app, key, app.bindings[key].factory, FromBinding(key), depth - 1);
    }
  }
}
