/** A parsed lookup argument set (lib/rapid/lookup_argument_set.rb): the
    ArgumentSet built from the request plus a resolver whose result is
    computed at most once per instance. The presence check run by its
    `validate` hook is in LookupValidation, which the parser calls. */
module LookupArgumentSets {
  import opened Wrappers
  import opened OrderedMaps
  import opened Values
  import opened Schema
  import ArgumentSets
  import ObjectSets

  /** `LookupEnvironment.new(set)`: what the resolver block runs against. */
  class LookupEnvironment {
    const argumentSet: LookupArgumentSet

    constructor(argumentSet: LookupArgumentSet)
      ensures this.argumentSet == argumentSet
    {
      this.argumentSet := argumentSet;
    }
  }

  class LookupArgumentSet {
    const definition: ArgumentSetDef
    const source: OMap<string, Value>
    const path: seq<string>
    const request: Option<Request>
    /** `@resolved_value`; None while the instance variable is undefined. */
    var resolved: Option<Value>
    /** `@environment`; None until first asked for. */
    var environment: Option<LookupEnvironment>
    /** How often the resolver block has been run on this instance. */
    ghost var resolverCalls: nat

    /** The memo is set exactly when the resolver has been run, it has been
        run at most once, and the environment is this set's own. */
    ghost predicate Valid()
      reads this
    {
      && resolverCalls == (if resolved.Some? then 1 else 0)
      && (environment.Some? ==> environment.value.argumentSet == this)
    }

    constructor(definition: ArgumentSetDef, source: OMap<string, Value>, path: seq<string>, request: Option<Request>)
      ensures this.definition == definition && this.source == source
      ensures this.path == path && this.request == request
      ensures resolved == None && environment == None
      ensures Valid() && resolverCalls == 0
    {
      this.definition := definition;
      this.source := source;
      this.path := path;
      this.request := request;
      resolved := None;
      environment := None;
      resolverCalls := 0;
    }

    /** `environment`: created on first use, the same object afterwards. */
    method Environment() returns (e: LookupEnvironment)
      requires Valid()
      modifies this
      ensures Valid() && e.argumentSet == this
      ensures environment == Some(e)
      ensures old(environment).Some? ==> e == old(environment).value
      ensures old(environment).None? ==> fresh(e) && e.argumentSet == this
      ensures resolved == old(resolved) && resolverCalls == old(resolverCalls)
    {
      if environment.None? {
        var created := new LookupEnvironment(this);
        environment := Some(created);
      }
      e := environment.value;
    }

    /** `resolve`: nil without a resolver; otherwise the resolver's value,
        computed on the first call only and remembered even when nil. */
    method Resolve() returns (v: Value)
      requires Valid()
      modifies this
      ensures Valid() && resolverCalls <= 1
      ensures definition.resolver.None? ==> v == Nil && resolved == old(resolved) && resolverCalls == old(resolverCalls)
      ensures definition.resolver.Some? ==> resolved == Some(v)
      ensures definition.resolver.Some? && old(resolved).Some? ==>
        v == old(resolved).value && resolverCalls == old(resolverCalls)
      ensures definition.resolver.Some? && old(resolved).None? ==>
        v == definition.resolver.value(request, source) && resolverCalls == 1
    {
      if definition.resolver.None? {
        return Nil;
      }
      if resolved.Some? {
        return resolved.value;
      }
      var env := Environment();
      // `environment.call(@request, &resolver)`: the block sees the request
      // and, through the environment, the parsed source.
      v := definition.resolver.value(request, env.argumentSet.source);
      resolved := Some(v);
      resolverCalls := resolverCalls + 1;
    }
  }

  /** `new` on a lookup argument set class: the parsed set, or the error. */
  method Create(def: ArgumentSetDef, raw: Value, path: seq<string>, request: Option<Request>)
    returns (r: Result<LookupArgumentSet, ArgumentError>)
    ensures r.Err? <==> ArgumentSets.Build(def, raw, path, request).Err?
    ensures r.Err? ==> r.error == ArgumentSets.Build(def, raw, path, request).error
    ensures r.Ok? ==> fresh(r.value) && r.value.Valid() && r.value.resolved.None?
    ensures r.Ok? ==> r.value.source == ArgumentSets.Build(def, raw, path, request).value
    ensures r.Ok? ==> r.value.definition == def && r.value.path == path
  {
    var built := ArgumentSets.New(def, raw, path, request);
    if built.Err? {
      return Err(built.error);
    }
    var created := new LookupArgumentSet(def, built.value, path, request);
    return Ok(created);
  }

  /** Asking twice runs the resolver once and answers the same both times. */
  method ResolveTwice(s: LookupArgumentSet) returns (first: Value, second: Value)
    requires s.Valid() && s.resolved.None? && s.definition.resolver.Some?
    modifies s
    ensures first == second == s.definition.resolver.value(s.request, s.source)
    ensures s.resolverCalls == 1
  {
    first := s.Resolve();
    second := s.Resolve();
  }

  /** `LookupArgumentSet.collate_objects(set)`: the argument types, as for
      any argument set, then every potential error. */
  method CollateObjects(def: ArgumentSetDef, objects: ObjectSets.ObjectSet)
    modifies objects
    ensures objects.added == old(objects.added) + ArgumentSets.ArgumentTypeIds(def.arguments) + def.potentialErrors
  {
    ArgumentSets.CollateObjects(def, objects);
    var i := 0;
    ghost var before := objects.added;
    while i < |def.potentialErrors|
      invariant 0 <= i <= |def.potentialErrors|
      invariant objects.added == before + def.potentialErrors[..i]
    {
      objects.AddObject(def.potentialErrors[i]);
      assert def.potentialErrors[..i + 1] == def.potentialErrors[..i] + [def.potentialErrors[i]];
      i := i + 1;
    }
    assert def.potentialErrors[..i] == def.potentialErrors;
  }
}
