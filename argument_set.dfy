/** Building an argument set from raw input (lib/apia/argument_set.rb):
    each declared argument, in declaration order, is looked up, checked for
    presence, parsed by its type and validated, and stored under its name.
    The first failure stops the build and carries the path to the argument. */
module ArgumentSets {
  import opened Wrappers
  import opened OrderedMaps
  import opened Values
  import opened Schema
  import Scalars
  import LookupValidation
  import ObjectSets

  /** `value_from_route(argument, request)`: the value the matched route
      extracted for this argument. An argument-set argument receives it as
      the value of the nested set's first argument. */
  function ValueFromRoute(arg: ArgumentDef, request: Option<Request>): (v: Value)
    ensures request.None? || request.value.routeArguments.None? || !HasKey(request.value.routeArguments.value, arg.name)
      ==> v == Missing
    ensures request.Some? && request.value.routeArguments.Some? && HasKey(request.value.routeArguments.value, arg.name) ==>
      var given := Get(request.value.routeArguments.value, arg.name).value;
      v == if given.Nil? || !arg.argType.ArgSetT? then given
           else if |arg.argType.argSet.arguments| == 0 then Hash([])
           else Hash([(Str(arg.argType.argSet.arguments[0].0), given)])
  {
    if request.None? || request.value.routeArguments.None? then Missing
    else
      var routeArgs := request.value.routeArguments.value;
      match Get(routeArgs, arg.name)
      case None => Missing
      case Some(given) =>
        if given.Nil? then Nil
        else if arg.argType.ArgSetT? then
          var nested := arg.argType.argSet.arguments;
          if |nested| > 0 then Hash([(Str(nested[0].0), given)]) else Hash([])
        else given
  }

  /** `lookup_value(hash, key, argument, request)`: the string key, then the
      symbol key, then the route, then a non-nil default; otherwise Missing. */
  function LookupValue(hash: OMap<Value, Value>, key: string, arg: ArgumentDef, request: Option<Request>): (v: Value)
    ensures HasKey(hash, Str(key)) ==> v == Get(hash, Str(key)).value
    ensures !HasKey(hash, Str(key)) && HasKey(hash, Sym(key)) ==> v == Get(hash, Sym(key)).value
    ensures !HasKey(hash, Str(key)) && !HasKey(hash, Sym(key)) && ValueFromRoute(arg, request).Missing? ==>
      v == (if arg.default.Nil? then Missing else arg.default)
    ensures !HasKey(hash, Str(key)) && !HasKey(hash, Sym(key)) && !ValueFromRoute(arg, request).Missing? ==>
      v == ValueFromRoute(arg, request)
  {
    if HasKey(hash, Str(key)) then Get(hash, Str(key)).value
    else if HasKey(hash, Sym(key)) then Get(hash, Sym(key)).value
    else
      var routeValue := ValueFromRoute(arg, request);
      if !routeValue.Missing? then routeValue
      else if !arg.default.Nil? then arg.default
      else Missing
  }

  /** No value in a map is the Missing sentinel: true of all raw input. */
  predicate NoMissingValues<K>(m: OMap<K, Value>) {
    forall i :: 0 <= i < |m| ==> !m[i].1.Missing?
  }

  lemma {:induction false} GetNotMissing<K>(m: OMap<K, Value>, k: K)
    requires NoMissingValues(m) && HasKey(m, k)
    ensures !Get(m, k).value.Missing?
  {
    if m[0].0 != k {
      GetNotMissing(m[1..], k);
    }
  }

  /** For input free of the sentinel, the lookup answers Missing exactly when
      neither key, nor the route, nor a non-nil default provides a value. */
  lemma LookupMissingIff(hash: OMap<Value, Value>, key: string, arg: ArgumentDef, request: Option<Request>)
    requires NoMissingValues(hash) && !arg.default.Missing?
    requires request.Some? && request.value.routeArguments.Some? ==> NoMissingValues(request.value.routeArguments.value)
    ensures LookupValue(hash, key, arg, request).Missing? <==>
      !HasKey(hash, Str(key)) && !HasKey(hash, Sym(key)) && ValueFromRoute(arg, request).Missing? && arg.default.Nil?
  {
    if HasKey(hash, Str(key)) {
      GetNotMissing(hash, Str(key));
    } else if HasKey(hash, Sym(key)) {
      GetNotMissing(hash, Sym(key));
    }
  }

  /** Nothing failed with HashExpected below `path`: every error raised while
      parsing under `path` names a path that extends it. */
  predicate ErrorUnder(e: ArgumentError, path: seq<string>) {
    !e.HashExpected? && path <= e.path
  }

  /** `parse_value(argument, value, index:, in_array:)` inside a set whose
      path is `path`. Errors name `path + [argument]`. */
  function ParseValue(arg: ArgumentDef, value: Value, index: Option<nat>, inArray: bool,
                      path: seq<string>, request: Option<Request>): (r: Result<Value, ArgumentError>)
    ensures value.Nil? ==> r == Ok(Nil)
    ensures r.Err? ==> ErrorUnder(r.error, path + [arg.name])
    ensures r.Ok? && arg.isArray && value.Arr? ==> r.value.Arr? && |r.value.items| == |value.items|
    decreases arg, 0, value, if value.Arr? then |value.items| + 1 else 0
  {
    var here := path + [arg.name];
    if value.Nil? then Ok(Nil)
    else if arg.isArray && value.Arr? then
      var items :- ParseItems(arg, value.items, 0, path, request);
      Ok(Arr(items))
    else if arg.isArray && !inArray then
      Err(InvalidArgument(arg.name, ArrayExpected, index, here, []))
    else
      match arg.argType
      case ScalarT(scalar) =>
        (match Scalars.Parse(scalar, value)
         case Err(message) => Err(InvalidArgument(arg.name, ParseError, index, here, [message]))
         case Ok(parsed) =>
           if Scalars.Valid(scalar, parsed) then Ok(parsed)
           else Err(InvalidArgument(arg.name, InvalidScalar, index, here, [])))
      case ArgSetT(nested) =>
        if !value.Hash? then Err(InvalidArgument(arg.name, ObjectExpected, index, here, []))
        else
          var source :- Build(nested, value, here, request);
          var accepted :- if nested.lookup then LookupValidation.Validate(source, arg.name, index, here) else Ok(true);
          Ok(ArgSet(source))
      case EnumT(enum) =>
        if value in enum.values then Ok(value)
        else Err(InvalidArgument(arg.name, InvalidEnumValue, index, here, []))
      case _ => Ok(Nil)
  }

  /** The element-wise map over an array value, from position `i`; each
      element is parsed with its own index and `in_array: true`. */
  function ParseItems(arg: ArgumentDef, items: seq<Value>, i: nat, path: seq<string>, request: Option<Request>)
    : (r: Result<seq<Value>, ArgumentError>)
    requires i <= |items|
    ensures r.Ok? ==> |r.value| == |items| - i
    ensures r.Err? ==> ErrorUnder(r.error, path + [arg.name])
    decreases arg, 0, Arr(items), |items| - i
  {
    if i == |items| then Ok([])
    else
      var first :- ParseValue(arg, items[i], Some(i), true, path, request);
      var rest :- ParseItems(arg, items, i + 1, path, request);
      Ok([first] + rest)
  }

  /** What one argument contributes: an error, nothing (the value is
      Missing), or the value to store. `key` is the key it is declared under. */
  function StepResult(key: string, arg: ArgumentDef, hash: OMap<Value, Value>, path: seq<string>, request: Option<Request>)
    : (r: Result<Option<Value>, ArgumentError>)
    ensures r.Err? ==> ErrorUnder(r.error, path + [arg.name])
    decreases arg, 1
  {
    var given := LookupValue(hash, key, arg, request);
    if arg.required && (given.Nil? || given.Missing?) then
      Err(MissingArgument(arg.name, path + [arg.name]))
    else if given.Missing? then Ok(None)
    else
      var parsed :- ParseValue(arg, given, None, false, path, request);
      var errors := arg.validation(parsed);
      if |errors| > 0 then Err(InvalidArgument(arg.name, ValidationErrors, None, path + [arg.name], errors))
      else Ok(Some(parsed))
  }

  /** `ArgumentSet.new(hash, path:, request:)`: the parsed source, or the
      error the constructor raises. */
  function Build(def: ArgumentSetDef, raw: Value, path: seq<string>, request: Option<Request>)
    : (r: Result<OMap<string, Value>, ArgumentError>)
    ensures !raw.Hash? ==> r == Err(HashExpected)
    ensures raw.Hash? && r.Err? ==> ErrorUnder(r.error, path)
    decreases def, 0, |def.arguments| + 1
  {
    if !raw.Hash? then Err(HashExpected)
    else BuildFrom(def, raw.entries, 0, [], path, request)
  }

  /** The `each_with_object` fold over the declared arguments from position `i`. */
  function BuildFrom(def: ArgumentSetDef, hash: OMap<Value, Value>, i: nat, acc: OMap<string, Value>,
                     path: seq<string>, request: Option<Request>)
    : (r: Result<OMap<string, Value>, ArgumentError>)
    requires i <= |def.arguments|
    ensures r.Err? ==> ErrorUnder(r.error, path)
    decreases def, 0, |def.arguments| - i
  {
    if i == |def.arguments| then Ok(acc)
    else
      var (key, arg) := def.arguments[i];
      var step :- StepResult(key, arg, hash, path, request);
      var acc' := if step.Some? then Put(acc, arg.name, step.value) else acc;
      BuildFrom(def, hash, i + 1, acc', path, request)
  }

  // ---------------------------------------------------------------------
  // An independent description of the fold

  /** What each argument contributes, in declaration order. */
  function Steps(args: OMap<string, ArgumentDef>, hash: OMap<Value, Value>, path: seq<string>, request: Option<Request>)
    : (steps: seq<Result<Option<Value>, ArgumentError>>)
    ensures |steps| == |args|
    ensures forall j :: 0 <= j < |args| ==> steps[j] == StepResult(args[j].0, args[j].1, hash, path, request)
  {
    seq(|args|, j requires 0 <= j < |args| => StepResult(args[j].0, args[j].1, hash, path, request))
  }

  /** The names arguments are stored under, in declaration order. */
  function Names(args: OMap<string, ArgumentDef>): (names: seq<string>)
    ensures |names| == |args|
    ensures forall j :: 0 <= j < |args| ==> names[j] == args[j].1.name
  {
    seq(|args|, j requires 0 <= j < |args| => args[j].1.name)
  }

  /** The first error among the steps from position `i`. */
  function FirstError(steps: seq<Result<Option<Value>, ArgumentError>>, i: nat): Option<ArgumentError>
    requires i <= |steps|
    decreases |steps| - i
  {
    if i == |steps| then None
    else if steps[i].Err? then Some(steps[i].error)
    else FirstError(steps, i + 1)
  }

  /** The entries the steps from position `i` store: one per step that
      produced a value, under its name, in order. */
  function StoredFrom(names: seq<string>, steps: seq<Result<Option<Value>, ArgumentError>>, i: nat): OMap<string, Value>
    requires |names| == |steps| && i <= |steps|
    decreases |steps| - i
  {
    if i == |steps| then []
    else if steps[i].Ok? && steps[i].value.Some? then [(names[i], steps[i].value.value)] + StoredFrom(names, steps, i + 1)
    else StoredFrom(names, steps, i + 1)
  }

  /** The first error among the arguments from position `i`, in declaration order. */
  function FirstFailure(args: OMap<string, ArgumentDef>, hash: OMap<Value, Value>, i: nat,
                        path: seq<string>, request: Option<Request>): Option<ArgumentError>
    requires i <= |args|
  {
    FirstError(Steps(args, hash, path, request), i)
  }

  /** The entries stored for the arguments from position `i`: one per
      argument whose value was not Missing, in declaration order. */
  function Stored(args: OMap<string, ArgumentDef>, hash: OMap<Value, Value>, i: nat,
                  path: seq<string>, request: Option<Request>): OMap<string, Value>
    requires i <= |args|
  {
    StoredFrom(Names(args), Steps(args, hash, path, request), i)
  }

  /** Argument names are distinct. */
  predicate DistinctNames(args: OMap<string, ArgumentDef>) {
    forall i, j :: 0 <= i < j < |args| ==> args[i].1.name != args[j].1.name
  }

  /** The fold's outcome from position `i` with `acc` already stored. */
  function FoldOutcome(args: OMap<string, ArgumentDef>, hash: OMap<Value, Value>, i: nat, acc: OMap<string, Value>,
                       path: seq<string>, request: Option<Request>): Result<OMap<string, Value>, ArgumentError>
    requires i <= |args|
  {
    match FirstFailure(args, hash, i, path, request)
    case Some(e) => Err(e)
    case None => Ok(acc + Stored(args, hash, i, path, request))
  }

  /** One step of the fold. */
  lemma BuildFromStep(def: ArgumentSetDef, hash: OMap<Value, Value>, i: nat, acc: OMap<string, Value>,
                      path: seq<string>, request: Option<Request>)
    requires i < |def.arguments|
    ensures var arg := def.arguments[i].1;
      BuildFrom(def, hash, i, acc, path, request) ==
        match StepResult(def.arguments[i].0, arg, hash, path, request)
        case Err(e) => Err(e)
        case Ok(None) => BuildFrom(def, hash, i + 1, acc, path, request)
        case Ok(Some(v)) => BuildFrom(def, hash, i + 1, Put(acc, arg.name, v), path, request)
  {
  }

  /** One step of the reference description. */
  lemma OutcomeStep(args: OMap<string, ArgumentDef>, hash: OMap<Value, Value>, i: nat, path: seq<string>, request: Option<Request>)
    requires i < |args|
    ensures var step := StepResult(args[i].0, args[i].1, hash, path, request);
      && (step.Err? ==> FirstFailure(args, hash, i, path, request) == Some(step.error))
      && (step.Ok? ==> FirstFailure(args, hash, i, path, request) == FirstFailure(args, hash, i + 1, path, request))
      && (step.Ok? && step.value.None? ==> Stored(args, hash, i, path, request) == Stored(args, hash, i + 1, path, request))
      && (step.Ok? && step.value.Some? ==>
            Stored(args, hash, i, path, request) == [(args[i].1.name, step.value.value)] + Stored(args, hash, i + 1, path, request))
  {
  }

  /** Storing a fresh name appends it and keeps the later names absent. */
  lemma StoreFresh(args: OMap<string, ArgumentDef>, i: nat, acc: OMap<string, Value>, v: Value)
    requires i < |args| && DistinctNames(args)
    requires forall j :: i <= j < |args| ==> !HasKey(acc, args[j].1.name)
    ensures Put(acc, args[i].1.name, v) == acc + [(args[i].1.name, v)]
    ensures forall j :: i + 1 <= j < |args| ==> !HasKey(acc + [(args[i].1.name, v)], args[j].1.name)
  {
    PutNew(acc, args[i].1.name, v);
    KeysAppend(acc, args[i].1.name, v);
    forall j | i + 1 <= j < |args| ensures args[j].1.name != args[i].1.name {
    }
  }

  /** A failing step ends both the fold and its description with its error. */
  lemma FoldFail(def: ArgumentSetDef, hash: OMap<Value, Value>, i: nat, acc: OMap<string, Value>,
                 path: seq<string>, request: Option<Request>)
    requires i < |def.arguments|
    requires StepResult(def.arguments[i].0, def.arguments[i].1, hash, path, request).Err?
    ensures BuildFrom(def, hash, i, acc, path, request) == FoldOutcome(def.arguments, hash, i, acc, path, request)
  {
    BuildFromStep(def, hash, i, acc, path, request);
    OutcomeStep(def.arguments, hash, i, path, request);
  }

  /** A Missing value moves both on unchanged. */
  lemma FoldSkip(def: ArgumentSetDef, hash: OMap<Value, Value>, i: nat, acc: OMap<string, Value>,
                 path: seq<string>, request: Option<Request>)
    requires i < |def.arguments|
    requires StepResult(def.arguments[i].0, def.arguments[i].1, hash, path, request) == Ok(None)
    requires BuildFrom(def, hash, i + 1, acc, path, request) == FoldOutcome(def.arguments, hash, i + 1, acc, path, request)
    ensures BuildFrom(def, hash, i, acc, path, request) == FoldOutcome(def.arguments, hash, i, acc, path, request)
  {
    BuildFromStep(def, hash, i, acc, path, request);
    OutcomeStep(def.arguments, hash, i, path, request);
  }

  /** A stored value moves both on with the entry appended. */
  lemma FoldStore(def: ArgumentSetDef, hash: OMap<Value, Value>, i: nat, acc: OMap<string, Value>, v: Value,
                  path: seq<string>, request: Option<Request>)
    requires i < |def.arguments|
    requires StepResult(def.arguments[i].0, def.arguments[i].1, hash, path, request) == Ok(Some(v))
    requires Put(acc, def.arguments[i].1.name, v) == acc + [(def.arguments[i].1.name, v)]
    requires var acc' := acc + [(def.arguments[i].1.name, v)];
      BuildFrom(def, hash, i + 1, acc', path, request) == FoldOutcome(def.arguments, hash, i + 1, acc', path, request)
    ensures BuildFrom(def, hash, i, acc, path, request) == FoldOutcome(def.arguments, hash, i, acc, path, request)
  {
    BuildFromStep(def, hash, i, acc, path, request);
    OutcomeStep(def.arguments, hash, i, path, request);
    var rest := Stored(def.arguments, hash, i + 1, path, request);
    AppendAssoc(acc, [(def.arguments[i].1.name, v)], rest);
  }

  lemma {:induction false} BuildFromIs(def: ArgumentSetDef, hash: OMap<Value, Value>, i: nat, acc: OMap<string, Value>,
                                       path: seq<string>, request: Option<Request>)
    requires i <= |def.arguments| && DistinctNames(def.arguments)
    requires forall j :: i <= j < |def.arguments| ==> !HasKey(acc, def.arguments[j].1.name)
    ensures BuildFrom(def, hash, i, acc, path, request) == FoldOutcome(def.arguments, hash, i, acc, path, request)
    decreases |def.arguments| - i
  {
    var args := def.arguments;
    if i < |args| {
      var step := StepResult(args[i].0, args[i].1, hash, path, request);
      if step.Err? {
        FoldFail(def, hash, i, acc, path, request);
      } else if step.value.None? {
        BuildFromIs(def, hash, i + 1, acc, path, request);
        FoldSkip(def, hash, i, acc, path, request);
      } else {
        var v := step.value.value;
        StoreFresh(args, i, acc, v);
        BuildFromIs(def, hash, i + 1, acc + [(args[i].1.name, v)], path, request);
        FoldStore(def, hash, i, acc, v, path, request);
      }
    } else {
      assert acc + [] == acc;
    }
  }

  /** A set built from a hash is the first argument error if there is one,
      and otherwise exactly the stored entries of the non-Missing arguments. */
  lemma BuildCharacterised(def: ArgumentSetDef, entries: OMap<Value, Value>, path: seq<string>, request: Option<Request>)
    requires DistinctNames(def.arguments)
    ensures Build(def, Hash(entries), path, request) ==
      match FirstFailure(def.arguments, entries, 0, path, request)
      case Some(e) => Err(e)
      case None => Ok(Stored(def.arguments, entries, 0, path, request))
  {
    BuildFromIs(def, entries, 0, [], path, request);
    assert Build(def, Hash(entries), path, request) == FoldOutcome(def.arguments, entries, 0, [], path, request);
    assert [] + Stored(def.arguments, entries, 0, path, request) == Stored(def.arguments, entries, 0, path, request);
  }

  /** No error from position `i` means every step from there succeeded. */
  lemma {:induction false} NoErrorMeans(steps: seq<Result<Option<Value>, ArgumentError>>, i: nat)
    requires i <= |steps|
    ensures FirstError(steps, i).None? <==> forall j :: i <= j < |steps| ==> steps[j].Ok?
    decreases |steps| - i
  {
    if i < |steps| {
      NoErrorMeans(steps, i + 1);
    }
  }

  /** The error reported is that of the earliest failing step. */
  lemma {:induction false} FirstErrorIsEarliest(steps: seq<Result<Option<Value>, ArgumentError>>, i: nat, j: nat)
    requires i <= j < |steps| && steps[j].Err?
    requires forall k :: i <= k < j ==> steps[k].Ok?
    ensures FirstError(steps, i) == Some(steps[j].error)
    decreases j - i
  {
    if i < j {
      FirstErrorIsEarliest(steps, i + 1, j);
    }
  }

  /** A name that no step from position `i` is stored under is absent. */
  lemma {:induction false} StoredFromOmits(names: seq<string>, steps: seq<Result<Option<Value>, ArgumentError>>, i: nat, name: string)
    requires |names| == |steps| && i <= |steps|
    requires forall k :: i <= k < |steps| ==> names[k] != name
    ensures !HasKey(StoredFrom(names, steps, i), name)
    decreases |steps| - i
  {
    if i < |steps| {
      StoredFromOmits(names, steps, i + 1, name);
    }
  }

  /** With distinct names, a successful step's name holds exactly what the
      step produced. */
  lemma {:induction false} StoredFromEntries(names: seq<string>, steps: seq<Result<Option<Value>, ArgumentError>>, i: nat, j: nat)
    requires |names| == |steps| && i <= j < |steps| && steps[j].Ok?
    requires forall k, l :: 0 <= k < l < |names| ==> names[k] != names[l]
    ensures Get(StoredFrom(names, steps, i), names[j]) == steps[j].value
    decreases |steps| - i
  {
    if i == j {
      if steps[j].value.None? {
        StoredFromOmits(names, steps, i + 1, names[j]);
      }
    } else {
      StoredFromEntries(names, steps, i + 1, j);
    }
  }

  /** No failure from position `i` means every argument from there passes. */
  lemma NoFailureMeans(args: OMap<string, ArgumentDef>, hash: OMap<Value, Value>, i: nat,
                       path: seq<string>, request: Option<Request>)
    requires i <= |args|
    ensures FirstFailure(args, hash, i, path, request).None? <==>
      forall j :: i <= j < |args| ==> StepResult(args[j].0, args[j].1, hash, path, request).Ok?
  {
    NoErrorMeans(Steps(args, hash, path, request), i);
  }

  /** The failure reported is the one of the earliest failing argument. */
  lemma FirstFailureIsEarliest(args: OMap<string, ArgumentDef>, hash: OMap<Value, Value>, i: nat, j: nat,
                               path: seq<string>, request: Option<Request>)
    requires i <= j < |args|
    requires StepResult(args[j].0, args[j].1, hash, path, request).Err?
    requires forall k :: i <= k < j ==> StepResult(args[k].0, args[k].1, hash, path, request).Ok?
    ensures FirstFailure(args, hash, i, path, request) == Some(StepResult(args[j].0, args[j].1, hash, path, request).error)
  {
    FirstErrorIsEarliest(Steps(args, hash, path, request), i, j);
  }

  /** An argument's name is stored exactly when its step produced a value,
      and then with that value. */
  lemma StoredEntries(args: OMap<string, ArgumentDef>, hash: OMap<Value, Value>, i: nat, j: nat,
                      path: seq<string>, request: Option<Request>)
    requires i <= j < |args| && DistinctNames(args)
    requires StepResult(args[j].0, args[j].1, hash, path, request).Ok?
    ensures Get(Stored(args, hash, i, path, request), args[j].1.name) ==
      StepResult(args[j].0, args[j].1, hash, path, request).value
  {
    var names := Names(args);
    assert forall k, l :: 0 <= k < l < |names| ==> names[k] != names[l];
    StoredFromEntries(names, Steps(args, hash, path, request), i, j);
  }

  // ---------------------------------------------------------------------
  // What one argument's step does

  /** A required argument whose value is nil or Missing fails with its path. */
  lemma RequiredMissing(key: string, arg: ArgumentDef, hash: OMap<Value, Value>, path: seq<string>, request: Option<Request>)
    requires arg.required
    requires LookupValue(hash, key, arg, request).Nil? || LookupValue(hash, key, arg, request).Missing?
    ensures StepResult(key, arg, hash, path, request) == Err(MissingArgument(arg.name, path + [arg.name]))
  {
  }

  /** An optional argument with no value contributes no key at all. */
  lemma OptionalMissingSkipped(key: string, arg: ArgumentDef, hash: OMap<Value, Value>, path: seq<string>, request: Option<Request>)
    requires !arg.required && LookupValue(hash, key, arg, request).Missing?
    ensures StepResult(key, arg, hash, path, request) == Ok(None)
  {
  }

  /** An explicit nil is stored as nil without type parsing (the validation
      blocks still see it). */
  lemma ExplicitNilStored(key: string, arg: ArgumentDef, hash: OMap<Value, Value>, path: seq<string>, request: Option<Request>)
    requires !arg.required && LookupValue(hash, key, arg, request).Nil? && arg.validation(Nil) == []
    ensures StepResult(key, arg, hash, path, request) == Ok(Some(Nil))
  {
  }

  /** Validation messages turn an accepted value into a `validation_errors`
      failure, without an index. */
  lemma ValidationFails(key: string, arg: ArgumentDef, hash: OMap<Value, Value>, path: seq<string>, request: Option<Request>)
    requires var given := LookupValue(hash, key, arg, request);
      !given.Missing? && !(arg.required && given.Nil?)
      && ParseValue(arg, given, None, false, path, request).Ok?
      && |arg.validation(ParseValue(arg, given, None, false, path, request).value)| > 0
    ensures var parsed := ParseValue(arg, LookupValue(hash, key, arg, request), None, false, path, request).value;
      StepResult(key, arg, hash, path, request) ==
        Err(InvalidArgument(arg.name, ValidationErrors, None, path + [arg.name], arg.validation(parsed)))
  {
  }

  // ---------------------------------------------------------------------
  // What parsing does, by kind of argument

  /** An array argument refuses a non-array outside an array. */
  lemma ArrayExpectedFails(arg: ArgumentDef, value: Value, index: Option<nat>, path: seq<string>, request: Option<Request>)
    requires arg.isArray && !value.Nil? && !value.Arr?
    ensures ParseValue(arg, value, index, false, path, request) ==
      Err(InvalidArgument(arg.name, ArrayExpected, index, path + [arg.name], []))
  {
  }

  /** An array value is parsed element by element: it succeeds iff every
      element does, element k is parsed with index k, and the results keep
      their positions. */
  lemma {:induction false} ParseItemsElementwise(arg: ArgumentDef, items: seq<Value>, i: nat, path: seq<string>, request: Option<Request>)
    requires i <= |items|
    ensures ParseItems(arg, items, i, path, request).Ok? <==>
      forall k :: i <= k < |items| ==> ParseValue(arg, items[k], Some(k), true, path, request).Ok?
    decreases |items| - i
  {
    if i < |items| {
      ParseItemsElementwise(arg, items, i + 1, path, request);
    }
  }

  /** A successful array holds, in order, each element's own parse. */
  lemma {:induction false} ParseItemsValues(arg: ArgumentDef, items: seq<Value>, i: nat, path: seq<string>, request: Option<Request>)
    requires i <= |items| && ParseItems(arg, items, i, path, request).Ok?
    ensures forall k :: i <= k < |items| ==>
      ParseValue(arg, items[k], Some(k), true, path, request).Ok?
      && ParseItems(arg, items, i, path, request).value[k - i] == ParseValue(arg, items[k], Some(k), true, path, request).value
    decreases |items| - i
  {
    if i < |items| {
      ParseItemsValues(arg, items, i + 1, path, request);
    }
  }

  /** The error of a failing array is that of its first failing element,
      carrying that element's index. */
  lemma {:induction false} ParseItemsFirstError(arg: ArgumentDef, items: seq<Value>, i: nat, j: nat,
                                                path: seq<string>, request: Option<Request>)
    requires i <= j < |items|
    requires forall k :: i <= k < j ==> ParseValue(arg, items[k], Some(k), true, path, request).Ok?
    requires ParseValue(arg, items[j], Some(j), true, path, request).Err?
    ensures ParseItems(arg, items, i, path, request) == Err(ParseValue(arg, items[j], Some(j), true, path, request).error)
    decreases j - i
  {
    if i < j {
      ParseItemsFirstError(arg, items, i + 1, j, path, request);
    }
  }

  /** An array whose element is not an array fails with that element's index. */
  lemma ArrayElementIndexed(arg: ArgumentDef, items: seq<Value>, j: nat, path: seq<string>, request: Option<Request>)
    requires j < |items| && arg.isArray && arg.argType.ScalarT?
    requires forall k :: 0 <= k < j ==> ParseValue(arg, items[k], Some(k), true, path, request).Ok?
    requires Scalars.Parse(arg.argType.scalar, items[j]).Err? && !items[j].Nil? && !items[j].Arr?
    ensures ParseValue(arg, Arr(items), None, false, path, request) ==
      Err(InvalidArgument(arg.name, ParseError, Some(j), path + [arg.name], [Scalars.Parse(arg.argType.scalar, items[j]).error]))
  {
    ParseItemsFirstError(arg, items, 0, j, path, request);
  }

  /** A scalar argument accepts a value iff the scalar parses it and the
      parsed value is valid; a parse failure carries the ParseError message. */
  lemma ScalarOutcome(arg: ArgumentDef, value: Value, index: Option<nat>, inArray: bool, path: seq<string>, request: Option<Request>)
    requires arg.argType.ScalarT? && !value.Nil? && !(arg.isArray && (value.Arr? || !inArray))
    ensures var parsed := Scalars.Parse(arg.argType.scalar, value);
      ParseValue(arg, value, index, inArray, path, request) ==
        if parsed.Err? then Err(InvalidArgument(arg.name, ParseError, index, path + [arg.name], [parsed.error]))
        else if !Scalars.Valid(arg.argType.scalar, parsed.value) then
          Err(InvalidArgument(arg.name, InvalidScalar, index, path + [arg.name], []))
        else Ok(parsed.value)
  {
  }

  /** An Integer given to a decimal argument parses but is not a Float, so
      it surfaces as `invalid_scalar`. */
  lemma DecimalArgumentRejectsInteger(arg: ArgumentDef, i: int, path: seq<string>, request: Option<Request>)
    requires arg.argType == ScalarT(Scalars.Decimal) && !arg.isArray
    ensures ParseValue(arg, Int(i), None, false, path, request) ==
      Err(InvalidArgument(arg.name, InvalidScalar, None, path + [arg.name], []))
  {
    Scalars.DecimalIntegerNotValid(i);
  }

  /** An enum argument accepts exactly its member values. */
  lemma EnumOutcome(arg: ArgumentDef, value: Value, index: Option<nat>, path: seq<string>, request: Option<Request>)
    requires arg.argType.EnumT? && !arg.isArray && !value.Nil?
    ensures ParseValue(arg, value, index, false, path, request).Ok? <==> value in arg.argType.enum.values
    ensures value !in arg.argType.enum.values ==>
      ParseValue(arg, value, index, false, path, request) == Err(InvalidArgument(arg.name, InvalidEnumValue, index, path + [arg.name], []))
  {
  }

  /** A nested argument set needs a hash; it is built with the path extended
      by the argument, and a lookup set's presence check then runs on it. */
  lemma NestedSetOutcome(arg: ArgumentDef, value: Value, index: Option<nat>, path: seq<string>, request: Option<Request>)
    requires arg.argType.ArgSetT? && !arg.isArray && !value.Nil?
    ensures !value.Hash? ==>
      ParseValue(arg, value, index, false, path, request) == Err(InvalidArgument(arg.name, ObjectExpected, index, path + [arg.name], []))
    ensures value.Hash? ==>
      var nested := Build(arg.argType.argSet, value, path + [arg.name], request);
      ParseValue(arg, value, index, false, path, request) ==
        if nested.Err? then Err(nested.error)
        else if arg.argType.argSet.lookup && LookupValidation.Validate(nested.value, arg.name, index, path + [arg.name]).Err? then
          Err(LookupValidation.Validate(nested.value, arg.name, index, path + [arg.name]).error)
        else Ok(ArgSet(nested.value))
  {
  }

  // ---------------------------------------------------------------------
  // The constructor, step by step

  /** `ArgumentSet.new(hash, path:, request:)`: the constructor's loop over
      the declared arguments, stopping at the first error. */
  method New(def: ArgumentSetDef, raw: Value, path: seq<string>, request: Option<Request>)
    returns (r: Result<OMap<string, Value>, ArgumentError>)
    ensures r == Build(def, raw, path, request)
  {
    if !raw.Hash? {
      return Err(HashExpected);
    }
    var source: OMap<string, Value> := [];
    var i := 0;
    while i < |def.arguments|
      invariant 0 <= i <= |def.arguments|
      invariant Build(def, raw, path, request) == BuildFrom(def, raw.entries, i, source, path, request)
      decreases |def.arguments| - i
    {
      var key, arg := def.arguments[i].0, def.arguments[i].1;
      var given := LookupValue(raw.entries, key, arg, request);
      if arg.required && (given.Nil? || given.Missing?) {
        return Err(MissingArgument(arg.name, path + [arg.name]));
      }
      if !given.Missing? {
        var parsed := ParseValue(arg, given, None, false, path, request);
        if parsed.Err? {
          return Err(parsed.error);
        }
        var errors := arg.validation(parsed.value);
        if |errors| > 0 {
          return Err(InvalidArgument(arg.name, ValidationErrors, None, path + [arg.name], errors));
        }
        source := Put(source, arg.name, parsed.value);
      }
      i := i + 1;
    }
    return Ok(source);
  }

  // ---------------------------------------------------------------------
  // Reading a built set

  /** `set[key]` for a String or Symbol key: the value of the first entry
      stored under that name, nil when absent. */
  function Item(source: OMap<string, Value>, key: Value): (v: Value)
    requires key.Str? || key.Sym?
    ensures var name := if key.Str? then key.s else key.name;
      HasKey(source, name) ==>
        exists i :: 0 <= i < |source| && source[i] == (name, v) && forall j :: 0 <= j < i ==> source[j].0 != name
    ensures !HasKey(source, if key.Str? then key.s else key.name) ==> v == Nil
  {
    var name := if key.Str? then key.s else key.name;
    if HasKey(source, name) then
      GetFound(source, name);
      Get(source, name).value
    else
      Nil
  }

  /** `has?(key)` */
  predicate Has(source: OMap<string, Value>, key: Value)
    requires key.Str? || key.Sym?
    ensures !Has(source, key) ==> Item(source, key) == Nil
    ensures Has(source, key) <==> (exists i :: 0 <= i < |source| && source[i].0 == (if key.Str? then key.s else key.name))
  {
    HasKey(source, if key.Str? then key.s else key.name)
  }

  /** `empty?` */
  predicate IsEmpty(source: OMap<string, Value>)
    ensures IsEmpty(source) <==> forall name :: !HasKey(source, name)
  {
    assert |source| > 0 ==> HasKey(source, Keys(source)[0]);
    |source| == 0
  }

  /** `to_hash`: the source with symbol keys, every nested argument set
      turned into its own hash. Values inside arrays are left as they are. */
  function ToHash(argSet: Value): (h: OMap<Value, Value>)
    requires argSet.ArgSet?
    ensures |h| == |argSet.source|
    ensures forall i :: 0 <= i < |h| ==> h[i].0 == Sym(argSet.source[i].0) && !h[i].1.ArgSet?
    ensures forall i :: 0 <= i < |h| && !argSet.source[i].1.ArgSet? ==> h[i].1 == argSet.source[i].1
    ensures forall i :: 0 <= i < |h| && argSet.source[i].1.ArgSet? ==> h[i].1 == Hash(ToHash(argSet.source[i].1))
    decreases argSet
  {
    seq(|argSet.source|, i requires 0 <= i < |argSet.source| =>
      var v := argSet.source[i].1;
      (Sym(argSet.source[i].0), if v.ArgSet? then Hash(ToHash(v)) else v))
  }

  /** After a successful build, an argument is present exactly when its
      looked-up value was not Missing, under both its String and Symbol
      name, and `[]` answers the parsed value. */
  lemma PresentIffNotMissing(def: ArgumentSetDef, entries: OMap<Value, Value>, j: nat, path: seq<string>, request: Option<Request>)
    requires DistinctNames(def.arguments) && j < |def.arguments|
    requires Build(def, Hash(entries), path, request).Ok?
    ensures var source := Build(def, Hash(entries), path, request).value;
      var (key, arg) := def.arguments[j];
      var given := LookupValue(entries, key, arg, request);
      && (Has(source, Str(arg.name)) <==> !given.Missing?)
      && (Has(source, Sym(arg.name)) <==> !given.Missing?)
      && (!given.Missing? ==> ParseValue(arg, given, None, false, path, request) == Ok(Item(source, Str(arg.name))))
  {
    var args := def.arguments;
    BuildCharacterised(def, entries, path, request);
    NoFailureMeans(args, entries, 0, path, request);
    StoredEntries(args, entries, 0, j, path, request);
  }

  /** A successful build has every required argument present. */
  lemma RequiredPresent(def: ArgumentSetDef, entries: OMap<Value, Value>, j: nat, path: seq<string>, request: Option<Request>)
    requires DistinctNames(def.arguments) && j < |def.arguments| && def.arguments[j].1.required
    requires Build(def, Hash(entries), path, request).Ok?
    ensures Has(Build(def, Hash(entries), path, request).value, Str(def.arguments[j].1.name))
  {
    PresentIffNotMissing(def, entries, j, path, request);
    BuildCharacterised(def, entries, path, request);
    NoFailureMeans(def.arguments, entries, 0, path, request);
  }

  /** A build fails with the missing-argument error of the first required
      argument that has no value, when every argument before it passes. */
  lemma MissingRequiredFails(def: ArgumentSetDef, entries: OMap<Value, Value>, j: nat, path: seq<string>, request: Option<Request>)
    requires DistinctNames(def.arguments) && j < |def.arguments|
    requires var (key, arg) := def.arguments[j];
      arg.required && LookupValue(entries, key, arg, request) in {Nil, Missing}
    requires forall k :: 0 <= k < j ==> StepResult(def.arguments[k].0, def.arguments[k].1, entries, path, request).Ok?
    ensures Build(def, Hash(entries), path, request) ==
      Err(MissingArgument(def.arguments[j].1.name, path + [def.arguments[j].1.name]))
  {
    BuildCharacterised(def, entries, path, request);
    FirstFailureIsEarliest(def.arguments, entries, 0, j, path, request);
  }

  /** Whether a type's parse can never produce the Missing sentinel from a
      present value: a scalar block that never
      answers it, or an enum that does not list it; every other kind of
      type parses to nil, an array or an argument set. */
  ghost predicate ParsesPresent(t: TypeRef) {
    match t
    case ScalarT(sc) => sc.Custom? ==> forall v :: sc.parse(v).Ok? ==> !sc.parse(v).value.Missing?
    case EnumT(e) => Missing !in e.values
    case _ => true
  }

  /** A present value parses to a present value. */
  lemma ParsedNotMissing(arg: ArgumentDef, value: Value, index: Option<nat>, inArray: bool,
                         path: seq<string>, request: Option<Request>)
    requires !value.Missing? && ParsesPresent(arg.argType)
    ensures var r := ParseValue(arg, value, index, inArray, path, request);
      r.Ok? ==> !r.value.Missing?
  {
  }

  lemma {:induction false} StoredFromNoMissing(names: seq<string>, steps: seq<Result<Option<Value>, ArgumentError>>, i: nat)
    requires |names| == |steps| && i <= |steps|
    requires forall k :: i <= k < |steps| && steps[k].Ok? && steps[k].value.Some? ==> !steps[k].value.value.Missing?
    ensures NoMissingValues(StoredFrom(names, steps, i))
    decreases |steps| - i
  {
    if i < |steps| {
      StoredFromNoMissing(names, steps, i + 1);
    }
  }

  /** A built set never stores the Missing sentinel: an argument whose
      value is Missing is skipped, and any other value is stored as it
      parsed. */
  lemma BuiltHasNoMissing(def: ArgumentSetDef, entries: OMap<Value, Value>, path: seq<string>, request: Option<Request>)
    requires DistinctNames(def.arguments)
    requires forall j :: 0 <= j < |def.arguments| ==> ParsesPresent(def.arguments[j].1.argType)
    requires Build(def, Hash(entries), path, request).Ok?
    ensures NoMissingValues(Build(def, Hash(entries), path, request).value)
  {
    var args := def.arguments;
    var steps := Steps(args, entries, path, request);
    forall k | 0 <= k < |steps| && steps[k].Ok? && steps[k].value.Some?
      ensures !steps[k].value.value.Missing?
    {
      var (key, arg) := args[k];
      ParsedNotMissing(arg, LookupValue(entries, key, arg, request), None, false, path, request);
    }
    StoredFromNoMissing(Names(args), steps, 0);
    BuildCharacterised(def, entries, path, request);
  }

  lemma {:induction false} StoredFromNone(names: seq<string>, steps: seq<Result<Option<Value>, ArgumentError>>, i: nat)
    requires |names| == |steps| && i <= |steps|
    requires forall k :: i <= k < |steps| ==> steps[k] == Ok(None)
    ensures StoredFrom(names, steps, i) == []
    decreases |steps| - i
  {
    if i < |steps| {
      StoredFromNone(names, steps, i + 1);
    }
  }

  /** `empty?` after a successful build: the set is empty exactly when
      every declared argument's looked-up value was Missing. */
  lemma EmptyIffAllMissing(def: ArgumentSetDef, entries: OMap<Value, Value>, path: seq<string>, request: Option<Request>)
    requires DistinctNames(def.arguments)
    requires Build(def, Hash(entries), path, request).Ok?
    ensures IsEmpty(Build(def, Hash(entries), path, request).value) <==>
      forall j :: 0 <= j < |def.arguments| ==> LookupValue(entries, def.arguments[j].0, def.arguments[j].1, request).Missing?
  {
    var args := def.arguments;
    var source := Build(def, Hash(entries), path, request).value;
    BuildCharacterised(def, entries, path, request);
    NoFailureMeans(args, entries, 0, path, request);
    if forall j :: 0 <= j < |args| ==> LookupValue(entries, args[j].0, args[j].1, request).Missing? {
      var steps := Steps(args, entries, path, request);
      forall k | 0 <= k < |steps| ensures steps[k] == Ok(None) {
        assert StepResult(args[k].0, args[k].1, entries, path, request).Ok?;
      }
      StoredFromNone(Names(args), steps, 0);
    }
    if IsEmpty(source) {
      forall j | 0 <= j < |args|
        ensures LookupValue(entries, args[j].0, args[j].1, request).Missing?
      {
        PresentIffNotMissing(def, entries, j, path, request);
      }
    }
  }

  // ---------------------------------------------------------------------
  // Referenced classes

  /** The ids `collate_objects` adds: the type of each argument usable for
      arguments, in declaration order. */
  function ArgumentTypeIds(args: OMap<string, ArgumentDef>): (ids: seq<string>)
    ensures |ids| <= |args|
    ensures forall id :: id in ids <==> exists j :: 0 <= j < |args| && args[j].1.argType.UsableForArgument() && args[j].1.argType.Id() == id
  {
    if |args| == 0 then []
    else
      var rest := ArgumentTypeIds(args[1..]);
      assert forall j :: 1 <= j < |args| ==> args[j] == args[1..][j - 1];
      if args[0].1.argType.UsableForArgument() then [args[0].1.argType.Id()] + rest else rest
  }

  lemma ArgumentTypeIdsAppend(args: OMap<string, ArgumentDef>, k: string, a: ArgumentDef)
    ensures ArgumentTypeIds(args + [(k, a)]) == ArgumentTypeIds(args) + ArgumentTypeIds([(k, a)])
  {
    if |args| > 0 {
      assert (args + [(k, a)])[1..] == args[1..] + [(k, a)];
      ArgumentTypeIdsAppend(args[1..], k, a);
    }
  }

  /** `ArgumentSet.collate_objects(set)`, with `objects` the set. */
  method CollateObjects(def: ArgumentSetDef, objects: ObjectSets.ObjectSet)
    modifies objects
    ensures objects.added == old(objects.added) + ArgumentTypeIds(def.arguments)
  {
    var args := def.arguments;
    var i := 0;
    while i < |args|
      invariant 0 <= i <= |args|
      invariant objects.added == old(objects.added) + ArgumentTypeIds(args[..i])
    {
      ArgumentTypeIdsAppend(args[..i], args[i].0, args[i].1);
      assert args[..i + 1] == args[..i] + [args[i]];
      var t := args[i].1.argType;
      if t.UsableForArgument() {
        objects.AddObject(t.Id());
      }
      i := i + 1;
    }
    assert args[..i] == args;
  }

  // ---------------------------------------------------------------------
  // A worked example: a required string and an integer defaulting to 0

  function ExampleSet(): ArgumentSetDef {
    ArgumentSetDef("ExampleSet", [
      ("name", ArgumentDef("name", "ExampleSet/NameArgument", ScalarT(Scalars.StringScalar()), false, true, Nil, None, v => [])),
      ("age", ArgumentDef("age", "ExampleSet/AgeArgument", ScalarT(Scalars.Integer), false, false, Int(0), None, v => []))
    ], false, None, [])
  }

  /** The two steps over `{"name" => "Adam"}`: the name as given and the
      age from its default. */
  lemma ExampleSetSteps()
    ensures StepResult("name", ExampleSet().arguments[0].1, [(Str("name"), Str("Adam"))], [], None) == Ok(Some(Str("Adam")))
    ensures StepResult("age", ExampleSet().arguments[1].1, [(Str("name"), Str("Adam"))], [], None) == Ok(Some(Int(0)))
  {
    var args := ExampleSet().arguments;
    var entries := [(Str("name"), Str("Adam"))];
    assert LookupValue(entries, "name", args[0].1, None) == Str("Adam");
    assert !HasKey(entries, Str("age")) && !HasKey(entries, Sym("age"));
    assert LookupValue(entries, "age", args[1].1, None) == Int(0);
  }

  /** Over `{"name" => "Adam"}` the name is stored first ... */
  lemma ExampleSetFirst()
    ensures Build(ExampleSet(), Hash([(Str("name"), Str("Adam"))]), [], None)
         == BuildFrom(ExampleSet(), [(Str("name"), Str("Adam"))], 1, [("name", Str("Adam"))], [], None)
  {
    ExampleSetSteps();
    BuildFromStep(ExampleSet(), [(Str("name"), Str("Adam"))], 0, [], [], None);
    assert Put([], "name", Str("Adam")) == [("name", Str("Adam"))];
  }

  /** ... and then the age, from its default. */
  lemma ExampleSetSecond()
    ensures BuildFrom(ExampleSet(), [(Str("name"), Str("Adam"))], 1, [("name", Str("Adam"))], [], None)
         == Ok([("name", Str("Adam")), ("age", Int(0))])
  {
    var def, hash := ExampleSet(), [(Str("name"), Str("Adam"))];
    ExampleSetSteps();
    BuildFromStep(def, hash, 1, [("name", Str("Adam"))], [], None);
    assert !HasKey([("name", Str("Adam"))], "age");
    PutNew([("name", Str("Adam"))], "age", Int(0));
    var out := [("name", Str("Adam")), ("age", Int(0))];
    assert def.arguments[1].0 == "age" && def.arguments[1].1.name == "age";
    assert StepResult(def.arguments[1].0, def.arguments[1].1, hash, [], None) == Ok(Some(Int(0)));
    assert Put([("name", Str("Adam"))], "age", Int(0)) == out;
    assert BuildFrom(def, hash, 1, [("name", Str("Adam"))], [], None) == BuildFrom(def, hash, 2, out, [], None);
    assert BuildFrom(def, hash, 2, out, [], None) == Ok(out);
  }

  /** Given only the name, the age takes its default. */
  lemma ExampleSetScenario()
    ensures Build(ExampleSet(), Hash([(Str("name"), Str("Adam"))]), [], None) == Ok([("name", Str("Adam")), ("age", Int(0))])
  {
    ExampleSetFirst();
    ExampleSetSecond();
  }

  /** Given nothing, the required name is reported missing at path [name]. */
  lemma ExampleSetMissingName()
    ensures Build(ExampleSet(), Hash([]), [], None) == Err(MissingArgument("name", ["name"]))
  {
    var def := ExampleSet();
    assert LookupValue([], "name", def.arguments[0].1, None) == Missing;
    MissingRequiredFails(def, [], 0, [], None);
    assert [] + ["name"] == ["name"];
  }
}
