/**
 * What the container keeps and what it builds anew: shared, scoped and transient keys, what
 * `forgetInstance` and its kin let go, who hears of a key bound again, and which contextual
 * binding is in force.
 */
module Keeping {
  import opened Options
  import opened Container
  import opened Assembly
  import opened Rebinding

  // ------------------------------------------------------------------ settings, as the calls made them

  /** The factory given last for a key while a consumer is built. */
  function GivenFor(steps: seq<Step>, consumer: Key, key: Key): Option<Factory> {
    if steps == [] then None
    else
      var last := steps[|steps| - 1];
      if last.DoWhen? && last.consumer == consumer && last.key == key then Some(last.factory)
      else GivenFor(steps[..|steps| - 1], consumer, key)
  }

  ghost predicate SetAsSaid(app: App, steps: seq<Step>) {
    && (forall consumer: Key, key: Key ::
          GivenFor(steps, consumer, key)
          == if (consumer, key) in app.contextual then Some(app.contextual[(consumer, key)]) else None)
    && (forall key :: key in app.watched <==> DoWatch(key) in steps)
    && (forall key :: key in app.bindings <==> LastBinding(steps, key).Some?)
  }

  /** Calls other than these three leave the settings alone. */
  lemma SettingsStay(app: App, step: Step, depth: nat)
    requires Inv(app)
    ensures var after := Take(app, step, depth);
            && (!step.DoWhen? ==> after.contextual == app.contextual)
            && (!step.DoWatch? ==> after.watched == app.watched)
            && (!step.DoRecord? ==> after.bindings == app.bindings)
            && (step.DoRecord? ==> after.bindings == app.bindings[step.key := step.binding])
  {
    match step
    case DoMake(key) => MakeKeeps(app, key, depth);
    case DoRecord(key, binding) =>
      FewerKeeps(app, Rebound(app, key, binding));
      MakeKeeps(Rebound(app, key, binding), key, depth);
    case _ =>
  }

  lemma NextSetAsSaid(app: App, steps: seq<Step>, last: Step, depth: nat)
    requires Inv(app) && SetAsSaid(app, steps)
    ensures SetAsSaid(Take(app, last, depth), steps + [last])
  {
    SettingsStay(app, last, depth);
    assert (steps + [last])[..|steps|] == steps;
  }

  lemma {:induction false} RunSetAsSaid(steps: seq<Step>, depth: nat)
    ensures Inv(Run(NEW_APP, steps, depth)) && SetAsSaid(Run(NEW_APP, steps, depth), steps)
    decreases |steps|
  {
    if steps != [] {
      var front, last := steps[..|steps| - 1], steps[|steps| - 1];
      assert steps == front + [last];
      RunSetAsSaid(front, depth);
      RunThen(NEW_APP, front, last, depth);
      TakeKeeps(Run(NEW_APP, front, depth), last, depth);
      NextSetAsSaid(Run(NEW_APP, front, depth), front, last, depth);
    }
  }

  // ------------------------------------------------------------------ built now

  /** Nothing is held that would be handed out instead of running the key's own factory. */
  predicate NotHeld(app: App, key: Key) {
    key !in app.instances && (key in app.bindings && app.bindings[key].scoped ==> key !in app.Scope())
  }

  /** What a key resolves to is made by its factory from what its needs resolve to at this very call. */
  ghost predicate BuiltNow(app: App, key: Key, depth: nat) {
    var outcome := Make(app, key, depth).1;
    outcome.Resolved? ==>
      && depth > 0 && key in app.bindings
      && var factory := app.bindings[key].factory;
         var parts := MakeAll(Push(app, key), factory.needs, depth - 1).1;
         && parts.Some? && Raw(outcome.value) == Built(FromBinding(key), factory, app.request, parts.value)
         && Layers(outcome.value) == app.Extenders(key)
  }

  lemma NotHeldIsBuiltNow(app: App, key: Key, depth: nat)
    requires Inv(app) && app.Contextual(key).None? && NotHeld(app, key)
    ensures BuiltNow(app, key, depth)
  {
    if depth > 0 && key in app.bindings {
      var factory := app.bindings[key].factory;
      FreshKeeps(app, key, factory, FromBinding(key), depth - 1);
      var (made, parts) := MakeAll(Push(app, key), factory.needs, depth - 1);
      if parts.Some? {
        FinishLayers(Built(FromBinding(key), factory, app.request, parts.value), Pop(made).Extenders(key));
      }
    }
  }

  // ------------------------------------------------------------------ kinds of bindings

  /** What was built and is shared belongs to a binding that is shared and not scoped. */
  predicate KindRight(app: App, key: Key) {
    key in app.instances && Raw(app.instances[key]).Built? ==>
      key in app.bindings && app.bindings[key].shared && !app.bindings[key].scoped
  }

  ghost predicate KindsRight(app: App) {
    forall key :: KindRight(app, key)
  }

  lemma KeepIsOfAKind(app: App, key: Key, value: Value)
    requires KindsRight(app) && key in app.bindings
    ensures KindsRight(Keep(app, key, app.bindings[key], value))
  {
    var kept := Keep(app, key, app.bindings[key], value);
    forall other ensures KindRight(kept, other) {
      assert KindRight(app, other);
    }
  }

  lemma KindsElsewhere(app: App, building: seq<Key>)
    requires KindsRight(app)
    ensures KindsRight(app.(building := building))
  {
    forall key ensures KindRight(app.(building := building), key) {
      assert KindRight(app, key);
    }
  }

  lemma {:induction false} MakeKindsRight(app: App, key: Key, depth: nat)
    requires KindsRight(app)
    ensures KindsRight(Make(app, key, depth).0) && Make(app, key, depth).0.bindings == app.bindings
    decreases depth, 0, 0
  {
    if depth > 0 {
      if app.Contextual(key).Some? {
        FreshKindsRight(app, key, app.Contextual(key).value,
                        FromContext(app.building[|app.building| - 1], key), depth - 1);
      } else if key in app.bindings {
        FreshKindsRight(app, key, app.bindings[key].factory, FromBinding(key), depth - 1);
        var (built, outcome) := Fresh(app, key, app.bindings[key].factory, FromBinding(key), depth - 1);
        if outcome.Resolved? {
          KeepIsOfAKind(built, key, outcome.value);
        }
      }
    }
  }

  lemma {:induction false} FreshKindsRight(app: App, key: Key, factory: Factory, origin: Origin, depth: nat)
    requires KindsRight(app)
    ensures var built := Fresh(app, key, factory, origin, depth).0; KindsRight(built) && built.bindings == app.bindings
    decreases depth, 2, 0
  {
    KindsElsewhere(app, app.building + [key]);
    MakeAllKindsRight(Push(app, key), factory.needs, depth);
    var made := MakeAll(Push(app, key), factory.needs, depth).0;
    KindsElsewhere(made, Pop(made).building);
  }

  lemma {:induction false} MakeAllKindsRight(app: App, needs: seq<Key>, depth: nat)
    requires KindsRight(app)
    ensures var made := MakeAll(app, needs, depth).0; KindsRight(made) && made.bindings == app.bindings
    decreases depth, 1, |needs|
  {
    if needs != [] {
      MakeKindsRight(app, needs[0], depth);
      MakeAllKindsRight(Make(app, needs[0], depth).0, needs[1..], depth);
    }
  }

  lemma QuietKindsRight(app: App, step: Step, depth: nat)
    requires KindsRight(app) && !step.DoMake? && !step.DoRecord?
    ensures KindsRight(Take(app, step, depth))
  {
    if step.DoInstance? {
      FinishLayers(Given(step.token), app.Extenders(step.key));
    }
    forall other ensures KindRight(Take(app, step, depth), other) {
      assert KindRight(app, other);
    }
  }

  lemma TakeKindsRight(app: App, step: Step, depth: nat)
    requires KindsRight(app)
    ensures KindsRight(Take(app, step, depth))
  {
    match step
    case DoMake(key) => MakeKindsRight(app, key, depth);
    case DoRecord(key, binding) =>
      var rebound := Rebound(app, key, binding);
      forall other ensures KindRight(rebound, other) {
        assert KindRight(app, other);
      }
      MakeKindsRight(rebound, key, depth);
    case _ => QuietKindsRight(app, step, depth);
  }

  lemma {:induction false} RunKindsRight(app: App, steps: seq<Step>, depth: nat)
    requires KindsRight(app)
    ensures KindsRight(Run(app, steps, depth))
    decreases |steps|
  {
    if steps != [] {
      TakeKindsRight(app, steps[0], depth);
      RunKindsRight(Take(app, steps[0], depth), steps[1..], depth);
    }
  }

  // ------------------------------------------------------------------ the theorems

  /**
   * After any run, a key that resolves is kept as it is bound: with the shared values if it
   * is shared, with those of the running request if it is scoped, and not at all if it is
   * neither, unless a value was handed over for it; and what is kept nowhere is built from
   * what its needs resolve to each time.
   */
  lemma EachKindIsKept(steps: seq<Step>, depth: nat, key: Key)
    ensures var app := Run(NEW_APP, steps, depth);
            var (after, outcome) := Make(app, key, depth);
            outcome.Resolved? && key !in app.instances ==>
              && key in app.bindings
              && (key in after.instances <==> app.bindings[key].shared && !app.bindings[key].scoped)
              && (key in after.instances ==> after.instances[key] == outcome.value)
              && (app.bindings[key].scoped ==> key in after.Scope() && after.Scope()[key] == outcome.value)
              && (NotHeld(app, key) ==> BuiltNow(app, key, depth))
  {
    RunKeeps(NEW_APP, steps, depth);
    RunKindsRight(NEW_APP, steps, depth);
    RunAsSaid(steps, depth);
    var app := Run(NEW_APP, steps, depth);
    MakeKeeps(app, key, depth);
    MakeKindsRight(app, key, depth);
    MakeIsCurrent(app, key, depth, Elsewhere(steps));
    var after := Make(app, key, depth).0;
    assert AddsOnlyBuilt(app, after, key) && KindRight(after, key);
    if NotHeld(app, key) {
      NotHeldIsBuiltNow(app, key, depth);
      if depth > 0 && key in app.bindings {
        FreshKeeps(app, key, app.bindings[key].factory, FromBinding(key), depth - 1);
      }
    }
  }

  /** What `forgetInstance`, `forgetInstances` and `forgetScopedInstances` let go, and nothing else. */
  predicate Forgets(step: Step, key: Key, shared: bool) {
    || (step.DoForgetInstance? && step.key == key)
    || (step.DoForgetInstances? && shared) || (step.DoForgetScoped? && !shared)
  }

  /**
   * After any run, a key forgotten by the call that lets go of its kind is built anew, and
   * every other value is still held.
   */
  lemma ForgottenIsBuiltAnew(steps: seq<Step>, depth: nat, forget: Step, key: Key)
    requires forget.DoForgetInstance? || forget.DoForgetInstances? || forget.DoForgetScoped?
    ensures var app := Run(NEW_APP, steps, depth);
            var after := Take(app, forget, depth);
            && (key in after.instances <==> key in app.instances && !Forgets(forget, key, true))
            && (key in after.instances ==> after.instances[key] == app.instances[key])
            && (key in after.Scope() <==> key in app.Scope() && !Forgets(forget, key, false))
            && (key in after.Scope() ==> after.Scope()[key] == app.Scope()[key])
            && (forall request :: request != app.request ==> SameScope(app, after, request))
            && after.bindings == app.bindings && after.extenders == app.extenders && after.contextual == app.contextual
            && (forget == DoForgetInstance(key) ==> BuiltNow(after, key, depth))
  {
    RunKeeps(NEW_APP, steps, depth);
    var app := Run(NEW_APP, steps, depth);
    TakeKeeps(app, forget, depth);
    if forget == DoForgetInstance(key) {
      NotHeldIsBuiltNow(Take(app, forget, depth), key, depth);
    }
  }

  /**
   * After any run, binding a key again resolves it at once, with the new binding, exactly
   * when somebody watches it and it was bound before or has a value; so a shared key that
   * can be built is held right away exactly then.
   */
  lemma WatchersAreTold(steps: seq<Step>, depth: nat, key: Key, binding: Binding)
    ensures var app := Run(NEW_APP, steps, depth);
            var told := DoWatch(key) in steps && (LastBinding(steps, key).Some? || key in app.instances);
            var rebound, after := Rebound(app, key, binding), Take(app, DoRecord(key, binding), depth);
            && (!told ==> after == rebound && key !in after.instances && key !in after.Scope())
            && (told && Buildable(rebound, key, None, depth) ==>
                 && (!binding.scoped && binding.shared ==> key in after.instances)
                 && (binding.scoped ==> key in after.Scope()))
  {
    RunSetAsSaid(steps, depth);
    RunKeeps(NEW_APP, steps, depth);
    var app := Run(NEW_APP, steps, depth);
    var rebound := Rebound(app, key, binding);
    FewerKeeps(app, rebound);
    if Buildable(rebound, key, None, depth) {
      BuildableIsMade(rebound, key, depth);
      FreshKeeps(rebound, key, binding.factory, FromBinding(key), depth - 1);
    }
  }

  /** The part for a need is made by the factory given for it under that key, or by the need's own binding. */
  ghost predicate PartAsGiven(steps: seq<Step>, key: Key, need: Key, part: Value) {
    var given := GivenFor(steps, key, need);
    if given.Some? then Raw(part).Built? && Raw(part).factory == given.value else OwnValue(part, need)
  }

  /** After any run, each part of what a key is built from is as the last word about that key and need says. */
  lemma PartsAreAsGiven(steps: seq<Step>, depth: nat, key: Key)
    ensures var app := Run(NEW_APP, steps, depth);
            var outcome := Make(app, key, depth).1;
            outcome.Resolved? && NotHeld(app, key) ==>
              && Raw(outcome.value).Built?
              && var needs, parts := Raw(outcome.value).factory.needs, Raw(outcome.value).parts;
                 && |parts| == |needs|
                 && forall i :: 0 <= i < |parts| ==> PartAsGiven(steps, key, needs[i], parts[i])
  {
    RunSetAsSaid(steps, depth);
    RunKeeps(NEW_APP, steps, depth);
    forall other ensures SharedAssembled(NEW_APP, other) {}
    forall request, other ensures ScopedAssembled(NEW_APP, request, other) {}
    RunAssembles(NEW_APP, steps, depth);
    if NotHeld(Run(NEW_APP, steps, depth), key) {
      PartsOfNow(Run(NEW_APP, steps, depth), steps, depth, key);
    }
  }

  lemma PartsOfNow(app: App, steps: seq<Step>, depth: nat, key: Key)
    requires Inv(app) && AllAssembled(app) && SetAsSaid(app, steps)
    requires app.Contextual(key).None? && NotHeld(app, key)
    ensures var outcome := Make(app, key, depth).1;
            outcome.Resolved? ==>
              && Raw(outcome.value).Built?
              && var needs, parts := Raw(outcome.value).factory.needs, Raw(outcome.value).parts;
                 && |parts| == |needs|
                 && forall i :: 0 <= i < |parts| ==> PartAsGiven(steps, key, needs[i], parts[i])
  {
    if depth > 0 && key in app.bindings {
      var factory := app.bindings[key].factory;
      ContextDecides(app, key, factory, FromBinding(key), depth - 1);
      FreshIsBy(app, key, factory, FromBinding(key), depth - 1);
    }
  }
}
