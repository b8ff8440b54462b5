/**
 * `Application`, container part, as the source has it: maps and a building stack that the
 * methods reassign. Each method moves `View()` by the function it is named after.
 */
module ApplicationClass {
  import opened Options
  import opened Container

  class Application {
    var bindings: map<Key, Binding>
    var instances: map<Key, Value>
    var extenders: map<Key, seq<nat>>
    var contextual: map<(Key, Key), Factory>
    var scopes: map<Request, map<Key, Value>>
    var watched: set<Key>
    var building: seq<Key>
    var request: Request

    function View(): App
      reads this
    {
      App(bindings, instances, extenders, contextual, scopes, watched, building, request)
    }

    constructor ()
      ensures View() == NEW_APP
    {
      bindings, instances, extenders, contextual, scopes := map[], map[], map[], map[], map[];
      watched, building, request := {}, [], None;
    }

    method Make(key: Key, depth: nat) returns (outcome: Outcome)
      modifies this
      ensures (View(), outcome) == Container.Make(old(View()), key, depth)
      decreases depth, 0, 0
    {
      if depth == 0 {
        return Threw;
      }
      var given := View().Contextual(key);
      if given.Some? {
        outcome := Fresh(key, given.value, FromContext(building[|building| - 1], key), depth - 1);
        return;
      }
      if key in instances {
        return Resolved(instances[key]);
      }
      if key !in bindings {
        return Threw;
      }
      var binding := bindings[key];
      if binding.scoped && key in View().Scope() {
        return Resolved(View().Scope()[key]);
      }
      outcome := Fresh(key, binding.factory, FromBinding(key), depth - 1);
      if outcome.Threw? {
        return;
      }
      if binding.scoped {
        scopes := scopes[request := View().Scope()[key := outcome.value]];
      } else if binding.shared {
        instances := instances[key := outcome.value];
      }
    }

    /** `fresh`: push, run the factory, pop in the `finally`, then the extenders. */
    method Fresh(key: Key, factory: Factory, origin: Origin, depth: nat) returns (outcome: Outcome)
      modifies this
      ensures (View(), outcome) == Container.Fresh(old(View()), key, factory, origin, depth)
      decreases depth, 2, 0
    {
      var during := request;
      building := building + [key];
      var parts := MakeAll(factory.needs, depth);
      if building != [] {
        building := building[..|building| - 1];
      }
      if parts.None? || factory.throws {
        return Threw;
      }
      var value := Built(origin, factory, during, parts.value);
      var wraps := View().Extenders(key);
      for i := 0 to |wraps|
        invariant value == Finish(Built(origin, factory, during, parts.value), wraps[..i])
      {
        assert wraps[..i + 1][..i] == wraps[..i];
        value := Wrapped(wraps[i], value);
      }
      assert wraps[..|wraps|] == wraps;
      outcome := Resolved(value);
    }

    method MakeAll(needs: seq<Key>, depth: nat) returns (parts: Option<seq<Value>>)
      modifies this
      ensures (View(), parts) == Container.MakeAll(old(View()), needs, depth)
      decreases depth, 1, |needs|
    {
      if needs == [] {
        return Some([]);
      }
      var first := Make(needs[0], depth);
      if first.Threw? {
        return None;
      }
      var rest := MakeAll(needs[1..], depth);
      parts := if rest.None? then None else Some([first.value] + rest.value);
    }

    method RecordBinding(key: Key, binding: Binding, depth: nat)
      modifies this
      ensures View() == Container.Record(old(View()), key, binding, depth)
    {
      var had := key in bindings || key in instances;
      bindings := bindings[key := binding];
      scopes := scopes[request := View().Scope() - {key}];
      instances := instances - {key};
      if had && key in watched {
        var _ := Make(key, depth);
      }
    }

    method Hand(key: Key, token: nat)
      modifies this
      ensures View() == Container.Instance(old(View()), key, token)
    {
      instances := instances[key := Finish(Given(token), View().Extenders(key))];
    }

    method ExtendWith(key: Key, extender: nat)
      modifies this
      ensures View() == Container.Extend(old(View()), key, extender)
    {
      extenders := extenders[key := View().Extenders(key) + [extender]];
      if key in instances {
        instances := instances[key := Wrapped(extender, instances[key])];
      }
    }

    method ForgetBuilt(key: Key)
      modifies this
      ensures View() == Container.ForgetInstance(old(View()), key)
    {
      instances := instances - {key};
      scopes := scopes[request := View().Scope() - {key}];
    }
  }
}
