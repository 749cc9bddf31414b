# Apia marshalling core in Dafny

This project models the core of **Apia** (krystal/apia, Ruby), a
schema-driven JSON API framework. It covers five parts:

- **Argument sets.** An argument set turns an untyped, string- or
  symbol-keyed input hash into a typed set of argument values. It handles
  defaults, route-extracted values, required checks, scalar parsing and
  validation, enums, nested argument sets and arrays. A failure stops the
  build and carries the path of argument names where it happened.
- **The field set and object hash.** These render a source value through
  an object type's fields into a symbol-keyed output hash. They handle
  field conditions, the endpoint's sparse-fieldset gate, nullability,
  scalar `valid?`/`cast`, enums, nested objects that are excluded by
  their own conditions (`:skip`), and polymorphs.
- **The older `APeye::Type#hash` renderer** and the introspection schema
  of a field.
- **The surrounding definition-time machinery:**
  - the argument DSL;
  - the route-set and route-group builders;
  - authenticator validation and `authorized_scope?`;
  - the action environment's `raise_error`;
  - `collate_objects`;
  - lookup argument sets, with their presence check and memoised resolver;
  - the response object.
- **The Decimal and Integer scalars.**

Ruby values are the datatype `Values.Value`:

- nil, booleans and unbounded integers;
- floats as exact reals;
- strings, symbols and arrays;
- hashes as association lists in insertion order, with `OrderedMaps.Put`
  for `hash[k] = v`;
- objects seen through their readers;
- built argument sets, procs and classes with their ancestors;
- the `MissingValue` marker.

Raised exceptions become the `Err` side of `Wrappers.Result`. User blocks
(conditions, validators, backends, resolvers, matchers) are pure Dafny
functions. Objects that the source changes in place are classes with
`modifies` clauses:

- the route groups;
- the route-set and route-group builders;
- the route set;
- the argument-set DSL;
- the field set;
- the lookup argument set;
- the response;
- the object set;
- the manifest error collector.

Where the source loops with side effects (building an argument set,
validating a field set or an authenticator, `collate_objects`, running a
builder block), the model is a method with a loop. Each such method ties
its result or new state to a specification function, and separate lemmas
characterise that function.

A field's value is read from a hash's symbol key first, even when that
key holds nil, and only then from its string key
(spec/specs/apia/definitions/field_spec.rb:95-99). `FieldSets.ReadKey`
reads keys in that order.

## Model

| member | source | states |
|---|---|---|
| OrderedMaps.Put | lib/apia/field_set.rb:17-19 | after `h[k] = v` the key reads back as `v` |
| OrderedMaps.PutNew | lib/apia/argument_set.rb:88 | storing a key that is not yet present appends it at the end (Ruby hashes keep insertion order) |
| OrderedMaps.PutOther | lib/apia/argument_set.rb:88 | storing one key leaves every other key's value unchanged |
| OrderedMaps.PutKeepsKeys | lib/apia/dsls/argument_set.rb:30 | overwriting a present key keeps the key order (the entry is replaced where it stood) |
| OrderedMaps.PutUnique | lib/apia/dsls/argument_set.rb:30 | a store keeps the keys distinct |
| Values.ToS | lib/rapid/environment.rb:27 | `to_s` of nil is empty, of a string is the string, and of a symbol its name; every value the model does not spell out gets one fixed spelling |
| Values.Inspect | lib/apeye/definitions/authenticator.rb:28 | `inspect` quotes a string, prefixes a symbol with `:`, spells nil `nil`, and is `to_s` for the other values |
| Values.NatToString | lib/apeye/definitions/authenticator.rb:39 | `Integer#to_s` of a natural is a non-empty string of decimal digits |
| Scalars.Registry.constructor | lib/apia/scalars/decimal.rb:10 | a registry starts with nothing registered |
| Scalars.Registry.Register | lib/apia/scalars/decimal.rb:10 | after `register(name, scalar)` the scalar is found under that name, and every other name finds what it found before |
| Scalars.Registry.Fetch | lib/apia/scalars/decimal.rb:10 | a name finds a scalar exactly when one was registered under it |
| Scalars.LoadApiaScalars | lib/apia/scalars/decimal.rb:10 | once decimal.rb has loaded, Apia's registry finds Decimal under `decimal` |
| Scalars.LoadRapidScalars | lib/rapid/scalars/integer.rb:10 | once integer.rb has loaded, Rapid's registry finds Integer under `integer` |
| Scalars.Parse | lib/apia/scalars/decimal.rb:22-32 | Decimal `parse` succeeds exactly on a pattern-matching string, a Float or an Integer, turns the string into a Float and returns the others as given, and otherwise fails with the ParseError message; Integer's parse passes the value through |
| Scalars.Valid | lib/apia/scalars/decimal.rb:18-20 | for Decimal and Integer, `valid?` holds exactly for the values their `cast` leaves unchanged |
| Scalars.Cast | lib/apia/scalars/decimal.rb:14-16 | Decimal `cast` (`to_f`) gives a Float, and is defined for Floats, Integers, nil and pattern-matching strings; Integer `cast` (`to_i`) gives an Integer, and is defined for Integers, Floats, nil and strings |
| Scalars.DecimalRecogniserCorrect | lib/apia/scalars/decimal.rb:23 | the character scanner accepts a string exactly when it matches `/\A-?\d+(\.\d+)?\z/` (as a declarative pattern) |
| Scalars.ScanUnsigned | lib/apia/scalars/decimal.rb:23 | from the start state, the scanner accepts exactly the unsigned part of the pattern (digits, optionally a point and digits) |
| Scalars.ScanFrac | lib/apia/scalars/decimal.rb:23 | in the fraction digits, the scanner accepts exactly an all-digit remainder |
| Scalars.ScanInt | lib/apia/scalars/decimal.rb:23 | in the integer part, the scanner accepts exactly the strings that finish the pattern |
| Scalars.DecimalPatternExamples | lib/apia/scalars/decimal.rb:23 | the pattern rejects `""`, `".5"`, `"1."`, `"+1"`, `"1e3"` and `"-"`, and accepts `"-12.5"` and `"007"` |
| Scalars.DecimalParseAccepts | lib/apia/scalars/decimal.rb:22-32 | Decimal `parse` succeeds exactly for a string matching the pattern, a Float or an Integer; every failure carries the ParseError message |
| Scalars.DecimalParseResults | lib/apia/scalars/decimal.rb:22-32 | a Float or an Integer is returned as given, and a string parses to a Float |
| Scalars.DecimalIntegerNotValid | lib/apia/scalars/decimal.rb:18-20 | an Integer passes Decimal `parse` but fails its `valid?`, which accepts only Floats |
| Scalars.DecimalStringParsesValid | lib/apia/scalars/decimal.rb:18-32 | every pattern-matching string parses to a valid Decimal value |
| Scalars.DecimalCastValid | lib/apia/scalars/decimal.rb:14-20 | what Decimal `cast` (`to_f`) returns is valid, and a Float casts to itself |
| Scalars.IntegerCastValid | lib/rapid/scalars/integer.rb:12-18 | Integer `valid?` holds exactly for Integers; an Integer casts (`to_i`) to itself, and every cast result is valid |
| Scalars.TruncateTowardZero | lib/rapid/scalars/integer.rb:12-14 | `Float#to_i` truncates toward zero, for both signs |
| Scalars.LeadingDigits | lib/rapid/scalars/integer.rb:12-14 | the digits `String#to_i` reads are all digits; there are none exactly when the string does not start with a digit; on a string without underscores they are the longest all-digit prefix |
| Scalars.StringToIUnderscores | lib/rapid/scalars/integer.rb:13 | a single underscore between digits is skipped (`"1_000".to_i` is 1000); a doubled or leading underscore ends the number (`"1__000"` gives 1, `"_1"` gives 0); a trailing one is ignored |
| Scalars.DecimalTextNegative | lib/apia/scalars/decimal.rb:24 | `"-12.5".to_f` is -12.5 |
| Scalars.DecimalTextLeadingZeros | lib/apia/scalars/decimal.rb:24 | `"007".to_f` is 7.0 |
| Scalars.StringToIExample | lib/rapid/scalars/integer.rb:13 | `"  -42abc".to_i` is -42 (leading space skipped, sign read, trailing text ignored) |
| Schema.AllConditionsTrueMeans | lib/apia/object.rb:59-65 | the conditions hold exactly when every one of them returns exactly `true` (a truthy value other than `true` does not count) |
| ArgumentSets.ValueFromRoute | lib/apia/argument_set.rb:207-230 | Missing without a request, without a route, or when the route has no value under the argument's name; otherwise the route's value, with nil kept as nil and a nested set's value wrapped under its first argument's name |
| ArgumentSets.LookupValue | lib/apia/argument_set.rb:140-152 | the input's string key wins over its symbol key; without either, the route value, then a non-nil default, then Missing |
| ArgumentSets.LookupMissingIff | lib/apia/argument_set.rb:140-152 | a lookup yields Missing exactly when neither key is present, the route offers nothing and there is no default |
| ArgumentSets.ParseValue | lib/apia/argument_set.rb:154-198 | nil parses to nil; every error is raised under the path extended by this argument; a parsed array keeps its length |
| ArgumentSets.StepResult | lib/apia/argument_set.rb:73-88 | the outcome of one argument in the constructor's loop; every error lies under the path extended by this argument |
| ArgumentSets.Build | lib/apia/argument_set.rb:65-90 | a non-hash input fails with the hash-expected error; every other error lies under the set's path |
| ArgumentSets.BuildCharacterised | lib/apia/argument_set.rb:65-90 | (distinct argument names) a build is the first failing argument's error if any argument fails; otherwise it is exactly the values of the non-Missing arguments, in declaration order |
| ArgumentSets.NoFailureMeans | lib/apia/argument_set.rb:72-89 | no failure is reported exactly when every argument's step succeeds |
| ArgumentSets.FirstFailureIsEarliest | lib/apia/argument_set.rb:72-89 | the failure reported is the one of the earliest failing argument |
| ArgumentSets.StoredEntries | lib/apia/argument_set.rb:80-88 | a passing argument's name holds exactly what its step produced, and is absent when that was Missing |
| ArgumentSets.RequiredMissing | lib/apia/argument_set.rb:75-77 | a required argument whose value is nil or Missing fails with MissingArgument at the path extended by it |
| ArgumentSets.OptionalMissingSkipped | lib/apia/argument_set.rb:80 | an optional argument with no value contributes no key |
| ArgumentSets.ExplicitNilStored | lib/apia/argument_set.rb:82-88 | an explicit nil on an optional argument is stored as nil, without type parsing |
| ArgumentSets.ValidationFails | lib/apia/argument_set.rb:83-86 | validation messages on a parsed value fail the build with `validation_errors`, those messages and no index |
| ArgumentSets.ArrayExpectedFails | lib/apia/argument_set.rb:163-164 | an array argument given a non-array outside an array fails with `array_expected` |
| ArgumentSets.ParseItemsElementwise | lib/apia/argument_set.rb:158-161 | an array parses exactly when each element parses with its own index |
| ArgumentSets.ParseItemsValues | lib/apia/argument_set.rb:158-161 | a parsed array holds, position by position, each element's own parse |
| ArgumentSets.ParseItemsFirstError | lib/apia/argument_set.rb:158-161 | a failing array reports its first failing element's error |
| ArgumentSets.ArrayElementIndexed | lib/apia/argument_set.rb:158-171 | the parse error of a bad element carries that element's index and the scalar's message |
| ArgumentSets.ScalarOutcome | lib/apia/argument_set.rb:166-180 | a scalar argument fails with `parse_error` (with the message) when `parse` raises, with `invalid_scalar` when the parsed value is not `valid?`, and otherwise yields the parsed value |
| ArgumentSets.DecimalArgumentRejectsInteger | lib/apia/argument_set.rb:174-177 | an Integer given to a decimal argument is refused as `invalid_scalar` |
| ArgumentSets.EnumOutcome | lib/apia/argument_set.rb:191-196 | an enum argument accepts exactly its declared values, and otherwise fails with `invalid_enum_value` |
| ArgumentSets.NestedSetOutcome | lib/apia/argument_set.rb:182-189 | a nested argument set needs a hash (`object_expected` otherwise); it is built at the extended path, and a lookup set's `validate` then runs on it |
| ArgumentSets.New | lib/apia/argument_set.rb:65-90 | the constructor's loop computes exactly `Build` |
| ArgumentSets.BuiltHasNoMissing | lib/apia/argument_set.rb:79-88 | when no argument type can parse a value into the Missing marker, a built set stores no Missing value: Missing arguments are skipped and everything else is stored as parsed |
| ArgumentSets.EmptyIffAllMissing | lib/apia/argument_set.rb:72-129 | after a successful build, `empty?` holds exactly when every declared argument's looked-up value was Missing |
| ArgumentSets.Has | lib/apia/argument_set.rb:121-123 | `has?` holds exactly when some entry is stored under the name, and when it fails `[]` answers nil |
| ArgumentSets.IsEmpty | lib/apia/argument_set.rb:128-130 | `empty?` holds exactly when no name is stored |
| ArgumentSets.Item | lib/apia/argument_set.rb:96-98 | `set[key]`, with a String or Symbol key, is the value of the first entry stored under that name, or nil when no entry has it |
| ArgumentSets.ToHash | lib/apia/argument_set.rb:111-115 | `to_hash` keeps every stored key, as a symbol and in order; plain values are unchanged and each nested set becomes the hash of its own `to_hash` |
| ArgumentSets.PresentIffNotMissing | lib/apia/argument_set.rb:72-123 | after a successful build, `has?` holds under both the String and the Symbol name exactly when the looked-up value was not Missing, and `[]` is the parsed value |
| ArgumentSets.RequiredPresent | lib/apia/argument_set.rb:75-123 | a successful build has every required argument present |
| ArgumentSets.MissingRequiredFails | lib/apia/argument_set.rb:75-77 | the first required argument with no value, all earlier ones passing, fails the build with its MissingArgument error |
| ArgumentSets.ArgumentTypeIds | lib/apia/argument_set.rb:39-43 | the ids handed over are exactly the types of the arguments usable for arguments |
| ArgumentSets.CollateObjects | lib/apia/argument_set.rb:39-43 | `collate_objects` adds those ids in declaration order |
| ArgumentSets.ExampleSetScenario | lib/apia/argument_set.rb:72-89 | with a required `name` and an `age` that defaults to 0, the input `{"name" => "Adam"}` builds `name: "Adam", age: 0` |
| ArgumentSets.ExampleSetMissingName | lib/apia/argument_set.rb:75-77 | with nothing given, `name` is reported missing at path `[name]` |
| LookupValidation.NonNilCount | lib/rapid/lookup_argument_set.rb:50 | `values.compact.size` never exceeds the number of values |
| LookupValidation.NonNilCountAtMostOne | lib/rapid/lookup_argument_set.rb:50 | at most one non-nil value exactly when no two stored values are both non-nil |
| LookupValidation.Validate | lib/rapid/lookup_argument_set.rb:45-55 | `validate` passes (with `true`) exactly when something was given and at most one value is non-nil; an error names the argument, the index and the set's path, and is `missing_lookup_value` exactly when nothing was given |
| LookupValidation.ValidateOutcome | lib/rapid/lookup_argument_set.rb:45-55 | `validate` passes exactly when something was given and at most one value is non-nil; otherwise it fails with `missing_lookup_value` or `ambiguous_lookup_values`, at the set's own path |
| LookupValidation.AllNilAccepted | lib/rapid/lookup_argument_set.rb:50-52 | keys that are present but hold nil do not make a lookup ambiguous |
| LookupArgumentSets.LookupEnvironment.constructor | lib/rapid/lookup_argument_set.rb:42 | the environment is built around its argument set |
| LookupArgumentSets.LookupArgumentSet.constructor | lib/rapid/lookup_argument_set.rb:8 | a new set keeps its definition, source, path and request, with nothing resolved yet |
| LookupArgumentSets.LookupArgumentSet.Environment | lib/rapid/lookup_argument_set.rb:41-43 | the environment is created on first use and is the same object afterwards |
| LookupArgumentSets.LookupArgumentSet.Resolve | lib/rapid/lookup_argument_set.rb:34-39 | nil without a resolver; otherwise the resolver runs on the first call only, and later calls answer the remembered value, even a nil one |
| LookupArgumentSets.Create | lib/rapid/lookup_argument_set.rb:8 | a lookup set is created exactly when `ArgumentSet.new` succeeds, holding the built source; otherwise its error is returned |
| LookupArgumentSets.ResolveTwice | lib/rapid/lookup_argument_set.rb:34-39 | resolving twice runs the resolver once and gives the same answer both times |
| LookupArgumentSets.CollateObjects | lib/rapid/lookup_argument_set.rb:24-30 | the argument types are added as for any argument set, then every potential error |
| ArgumentSetDsls.EffectiveType | lib/apia/dsls/argument_set.rb:12 | the `type:` keyword wins; without it, the first positional argument is used |
| ArgumentSetDsls.Declared | lib/apia/dsls/argument_set.rb:14-26 | the id is `<set id>/<Camelized name>Argument`; an array literal sets the array flag and its first element is the type; `required`, `default` and `description` are copied only when given |
| ArgumentSetDsls.ArgumentSetDsl.constructor | lib/apia/dsls/argument_set.rb:9 | the DSL works on the given definition |
| ArgumentSetDsls.ArgumentSetDsl.Argument | lib/apia/dsls/argument_set.rb:11-31 | the argument, after its block has run if one is given, is stored under its name in the definition |
| ArgumentSetDsls.StoreKeepsKeyed | lib/apia/dsls/argument_set.rb:30 | storing keeps keys equal to the names and distinct, replaces an earlier argument of the same name where it stood, appends a new one and leaves the others unchanged |
| ArgumentSetDsls.RedeclarationReplaces | lib/apia/dsls/argument_set.rb:30 | declaring the same name twice leaves one argument, the later one |
| FieldSets.ReadKey | spec/specs/apia/definitions/field_spec.rb:82-108 | a hash never fails: its symbol key wins when present (even holding nil), with neither key it answers nil; any other object answers exactly the readers it has, and a failure is the missing method's error |
| FieldSets.RawValue | spec/specs/apia/definitions/field_spec.rb:110-130 | a block backend is called with the source; a key backend is read as the key, in place of the field's name; only a read from a non-hash can fail |
| FieldSets.RawValueExamples | spec/specs/apia/definitions/field_spec.rb:82-108 | a symbol key is read, even when it holds `false`; a symbol holding nil wins over a string key; an object's reader is read; a value without the reader fails |
| FieldSets.FieldValue | spec/specs/apia/definitions/field_spec.rb:142-175 | a successful array field yields nil or an array |
| FieldSets.CastItemsElementwise | spec/specs/apia/definitions/field_spec.rb:142-175 | each element of an array field is cast with its index on the path, in order |
| FieldSets.CastValue | spec/specs/apia/definitions/field_spec.rb:134-140 | a scalar output is the `cast` of a `valid?` value; an enum output is the enum's cast of the value (the value itself without a cast) and one of the enum's values; an object output is a hash or `:skip` |
| FieldSets.CastOption | lib/rapid/internal_api/object_schema_polymorph.rb:13-27 | under the dispatch as modelled (see "Left out"), the options declared here are tried in order: a polymorph renders one tagged entry, or fails with the unmapped-polymorph error when no option matches |
| FieldSets.FieldEntry | lib/apia/field_set.rb:45-53 | a field whose condition fails or that the endpoint does not select gives nothing; a stored entry comes from an included, selected field and is the field's value, never `:skip`; a failure is the field's own error |
| FieldSets.GenerateFrom | lib/apia/field_set.rb:44-54 | the walk fails only with the error of one of the remaining fields, and succeeds when none of them fails |
| FieldSets.GenerateHash | lib/apia/field_set.rb:42-55 | the output is a hash |
| FieldSets.GenerateHashOk | lib/apia/field_set.rb:42-55 | when the hash is generated, every field's entry succeeded and the output holds exactly the fields whose entry is a value, under their symbol names |
| FieldSets.GenerateHashFails | lib/apia/field_set.rb:42-55 | a failure is the error of a field whose predecessors all succeeded |
| FieldSets.GenerateFromStops | lib/apia/field_set.rb:44-54 | the walk fails exactly when some field fails, and with the first such field's error |
| FieldSets.ConditionFalseAbsent | lib/apia/field_set.rb:45 | a field whose condition is false leaves no key |
| FieldSets.FilteredAbsent | lib/apia/field_set.rb:47-48 | a field the endpoint's `include_field?` rejects leaves no key |
| FieldSets.IncludedStored | lib/apia/field_set.rb:50-53 | an included, selected field is stored under its symbol name, unless its value is `:skip` |
| FieldSets.FirstFailurePropagates | lib/apia/field_set.rb:50 | the first failing field's error is the result of `generate_hash` |
| FieldSets.NullHandling | spec/specs/apia/object_spec.rb:143-163 | a nil raw value is nil on a nullable field and a NullFieldValue error (with the field's path) on any other field |
| FieldSets.WrongScalarTypeFails | spec/specs/apia/object_spec.rb:100-110 | a value the scalar does not accept as `valid?` is an InvalidScalarValue error naming the scalar, not a coercion |
| FieldSets.ExcludedObjectSkipped | spec/specs/apia/object_spec.rb:125-141 | a nested object excluded by its own conditions yields `:skip` |
| FieldSets.FirstMatchingOption | lib/rapid/internal_api/object_schema_polymorph.rb:13-27 | of the options declared here, the modelled dispatch (see "Left out") uses the first whose matcher accepts the value |
| FieldSets.NullableScenario | spec/specs/apia/object_spec.rb:143-163 | `{id}` rendered with a nullable `name` gives `id` and `name: nil` |
| FieldSets.RequiredNullScenario | spec/specs/apia/object_spec.rb:143-155 | `{id}` rendered with a non-nullable `name` fails with NullFieldValue for `name` at path `[name]` |
| FieldSets.SpecPart | lib/apia/field_set.rb:63-71 | a field gives no part exactly when `include` is `false`; every part starts with the field's key; an object or polymorph field without a string `include` gives `<key>[*]` |
| FieldSets.SpecParts | lib/apia/field_set.rb:61-73 | there are at most as many parts as fields, and none exactly when every field has `include false` |
| FieldSets.SpecPartsAppend | lib/apia/field_set.rb:61-73 | the parts of two runs of fields are the first run's parts followed by the second's: one part per field, in field order |
| FieldSets.SpecPartsOne | lib/apia/field_set.rb:63-71 | a single field gives its own part, or none when excluded |
| FieldSets.DefaultSpec | lib/apia/field_set.rb:61-73 | the default spec is empty when every field is excluded, and a single included field's spec is its part |
| FieldSets.DefaultSpecAppend | lib/apia/field_set.rb:61-73 | a field added at the end adds its part after a comma (with no comma before the first part), or nothing when excluded |
| FieldSets.SpecPartsMembers | lib/apia/field_set.rb:61-73 | the default spec has one part for every field not excluded by `include false`, and no other part |
| FieldSets.JoinAppend | lib/apia/field_set.rb:73 | `join(',')` puts exactly one separator between consecutive parts |
| FieldSets.DefaultSpecExample | lib/apia/field_set.rb:63-73 | `id`, `user` (an object), `secret` (`include false`), `tags` (`include "name"`) give `"id,user[*],tags[name]"` |
| FieldSets.InvalidTypeErrors | lib/apia/field_set.rb:26-32 | at most one report per field, each InvalidFieldType for the set's object |
| FieldSets.InvalidTypeErrorsExact | lib/apia/field_set.rb:26-32 | `validate` reports every field whose type is not usable for fields, with the InvalidFieldType code and message, and reports nothing else |
| FieldSets.FieldSet.constructor | lib/apia/field_set.rb:11 | a new field set is empty and has no spec yet |
| FieldSets.FieldSet.Add | lib/apia/field_set.rb:17-19 | the field is stored under its name and returned |
| FieldSets.FieldSet.Validate | lib/apia/field_set.rb:26-32 | the loop adds exactly `InvalidTypeErrors` to the collector |
| FieldSets.FieldSet.Spec | lib/apia/field_set.rb:61-76 | the default spec is computed on the first call and remembered |
| ApeyeTypes.FieldOutput | lib/apeye/type.rb:27-44 | a field whose condition fails gives no key, and a nil value gives nil |
| ApeyeTypes.FieldOutputCases | lib/apeye/type.rb:29-44 | a scalar instance renders as its `cast`; a nested type renders its own hash when it is included and is skipped when it is not |
| ApeyeTypes.HashFrom | lib/apeye/type.rb:27-46 | the walk adds no key but the string names of the fields it visits |
| ApeyeTypes.TypeHash | lib/apeye/type.rb:25-48 | every key of the hash is the string name of one of the type's fields |
| ApeyeTypes.TypeHashCharacterised | lib/apeye/type.rb:25-48 | the hash holds exactly the included fields, under their string names, each with that field's output |
| ApeyeTypes.KeysAreStrings | lib/apeye/type.rb:46 | every key of the hash is a String |
| ApeyeTypes.Included | lib/apeye/type.rb:54-60 | an instance with no conditions is included; otherwise it is included exactly when every condition returns exactly `true` |
| Objects.IncludeWithoutConditions | lib/apia/object.rb:60 | an object with no conditions is included |
| Objects.ObjectInstance.Include | lib/apia/object.rb:59-65 | an object is included exactly when every condition returns exactly `true` |
| Objects.IncludeExamples | spec/specs/apia/object_spec.rb:42-85 | `true, false` excludes; a truthy non-`true` value excludes; `true, true` includes |
| Objects.ObjectInstance.ToHash | lib/apia/object.rb:51-53 | `hash` is the type's field set rendered over the value: on success a hash whose entry for every field is that field's own entry |
| Objects.NestedObjectRendering | lib/apia/object.rb:51-53 | an object-typed field renders the nested instance's `hash` when that instance is included, and `:skip` when it is not |
| Objects.FieldTypeIds | lib/apia/object.rb:26-30 | the ids handed over are exactly the types of the fields usable for fields |
| Objects.CollateObjects | lib/apia/object.rb:26-30 | `collate_objects` adds those ids in field order |
| Objects.CollateExample | spec/specs/apia/object_spec.rb:10-21 | a string field and a field typed by another object hand over both types and not the object itself |
| Objects.ExcludedAuthorExample | spec/specs/apia/object_spec.rb:125-141 | a book whose author type is excluded renders only its title |
| FieldSchemaTypes.SpecBackend | lib/apia/schema/field_schema_type.rb:25-34 | `all` is whether `include` is nil or `true`; `spec` is present exactly for a string `include`, and holds it; there are no other keys |
| FieldSchemaTypes.ExcludedSpec | lib/apia/schema/field_schema_type.rb:28-31 | `include false` gives `all: false` and no `spec` |
| FieldSchemaTypes.SpecBlockDescribed | lib/apia/schema/field_schema_type.rb:25-34 | the `spec` backend block, given a field definition, builds exactly the hash `SpecBackend` characterises |
| FieldSchemaTypes.TypeFieldValue | lib/apia/schema/field_schema_type.rb:15-17 | the `type` field, through its backend, renders the field's type id |
| FieldSchemaTypes.NullFieldValue | lib/apia/schema/field_schema_type.rb:18-20 | the `null` field, through `null?`, renders whether the field is nullable |
| FieldSchemaTypes.ArrayFieldValue | lib/apia/schema/field_schema_type.rb:21-23 | the `array` field, through `array?`, renders whether the field is an array |
| FieldSchemaTypes.SchemaEntriesOk | lib/apia/schema/field_schema_type.rb:12-34 | no field of the schema fails when a field definition is rendered |
| FieldSchemaTypes.DescribedRendering | lib/apia/schema/field_schema_type.rb:12-34 | rendering a field definition succeeds and stores its type's id under `type`, its `null?` under `null` and its `array?` under `array` |
| FieldSchemaTypes.OnlyDescriptionNullable | lib/apia/schema/field_schema_type.rb:12-25 | the schema's fields are keyed by their names, and only `description` may be null |
| Responses.ToSym | lib/apia/response.rb:29 | `to_sym` gives a symbol with the same name |
| Responses.Response.constructor | lib/apia/response.rb:14-21 | the status is the endpoint's HTTP status code, and fields, headers and body start empty |
| Responses.Response.AddField | lib/apia/response.rb:28-30 | the value is stored under the symbol key and nothing else changes |
| Responses.Response.AddHeader | lib/apia/response.rb:37-39 | name and value are stringified, a nil value stays nil, and nothing else changes |
| Responses.Response.SetBody | lib/apia/response.rb:12 | `body=` sets the body only |
| Responses.Response.Hash | lib/apia/response.rb:45-47 | on the first success, the endpoint's field set renders the fields and the result is remembered; later calls answer the memo |
| Responses.Response.Body | lib/apia/response.rb:52-54 | a truthy stored body is returned and the memo is untouched; otherwise `hash`, which answers an existing memo and otherwise renders and remembers a success |
| Responses.HashIgnoresLaterFields | lib/apia/response.rb:46 | once rendered, the hash is not changed by fields added later |
| Authenticators.AnyScopeFrom | lib/rapid/authenticator.rb:51 | `any?`: some remaining scope is accepted by the validator |
| Authenticators.AuthorizedScope | lib/rapid/authenticator.rb:47-52 | true without a validator or with no scopes; otherwise true exactly when some scope's validator call is truthy |
| Authenticators.AuthorizedScopeExamples | lib/rapid/authenticator.rb:47-52 | one accepted scope anywhere in the list suffices; all scopes rejected refuses; empty scopes and a missing validator accept |
| Authenticators.ErrorIds | lib/rapid/authenticator.rb:28-32 | one id per potential error, in order |
| Authenticators.CollateObjects | lib/rapid/authenticator.rb:28-32 | `collate_objects` adds every potential error in order |
| AuthenticatorDefinitions.AuthenticatorDefinition.constructor | lib/apeye/definitions/authenticator.rb:15-18 | a new definition has its name, no type or action, and no potential errors |
| AuthenticatorDefinitions.AuthenticatorDefinition.Validate | lib/apeye/definitions/authenticator.rb:24-42 | `validate` adds the type, action and potential-error reports in that order |
| AuthenticatorDefinitions.AuthenticatorDefinition.ValidateType | lib/apeye/definitions/authenticator.rb:25-29 | the type check adds exactly its reports |
| AuthenticatorDefinitions.AuthenticatorDefinition.ValidateAction | lib/apeye/definitions/authenticator.rb:31-35 | the action check adds exactly its reports |
| AuthenticatorDefinitions.AuthenticatorDefinition.ValidatePotentialErrors | lib/apeye/definitions/authenticator.rb:37-41 | the loop adds exactly one report per bad potential error, in index order |
| AuthenticatorDefinitions.TypeErrors | lib/apeye/definitions/authenticator.rb:25-29 | the type check reports at most once, and nothing exactly when the type is one of `TYPES` |
| AuthenticatorDefinitions.ActionErrors | lib/apeye/definitions/authenticator.rb:31-35 | the action check reports at most once, and nothing exactly when the action is a Proc |
| AuthenticatorDefinitions.PotentialErrorErrors | lib/apeye/definitions/authenticator.rb:37-41 | at most one report per potential error, each InvalidPotentialError |
| AuthenticatorDefinitions.ExpectedErrors | lib/apeye/definitions/authenticator.rb:24-42 | `validate` reports nothing exactly when the type is `:bearer`, the action is a Proc and every potential error is an error class; every report names the authenticator |
| AuthenticatorDefinitions.TypeChecked | lib/apeye/definitions/authenticator.rb:8-29 | MissingType is reported exactly when the type is nil, InvalidType exactly when it is set but not `:bearer`, and at most one of them |
| AuthenticatorDefinitions.ActionChecked | lib/apeye/definitions/authenticator.rb:31-35 | MissingAction is reported exactly when there is no action, InvalidAction exactly when the action is not a Proc, and at most one of them |
| AuthenticatorDefinitions.PotentialErrorsSound | lib/apeye/definitions/authenticator.rb:37-41 | every potential-error report names the index of an entry that is not an `APeye::Error` class |
| AuthenticatorDefinitions.PotentialErrorsComplete | lib/apeye/definitions/authenticator.rb:37-41 | every such entry is reported, with its own index |
| AuthenticatorDefinitions.PotentialErrorsNone | lib/apeye/definitions/authenticator.rb:37-41 | nothing is reported exactly when every entry is an error class |
| AuthenticatorDefinitions.PotentialErrorMessagesDistinct | lib/apeye/definitions/authenticator.rb:39 | different indices give different messages |
| AuthenticatorDefinitions.NatToStringInjective | lib/apeye/definitions/authenticator.rb:39 | `Integer#to_s` is injective on naturals |
| AuthenticatorDefinitions.PotentialErrorCodes | lib/apeye/definitions/authenticator.rb:37-41 | the loop reports only InvalidPotentialError, and does so exactly when some entry is bad |
| AuthenticatorDefinitions.ValidateCodes | lib/apeye/definitions/authenticator.rb:24-42 | each of the five codes appears in `validate`'s reports exactly under its own condition |
| AuthenticatorDefinitions.ValidDefinitionClean | lib/apeye/definitions/authenticator.rb:24-42 | a bearer authenticator with a Proc action and only error classes is reported clean |
| AuthenticatorDefinitions.TypesTextBearer | lib/apeye/definitions/authenticator.rb:8-28 | `TYPES.join(', ')` is `bearer` |
| AuthenticatorDefinitions.InvalidTypeExample | lib/apeye/definitions/authenticator.rb:27-28 | `:invalid` is reported as `The type must be one of bearer (was: :invalid)` |
| AuthenticatorDefinitions.InvalidPotentialErrorExample | lib/apeye/definitions/authenticator.rb:37-41 | a non-error class at index 1 is reported with index 1 |
| Environments.Call | lib/rapid/environment.rb:12-16 | nil without a block; otherwise the block's value on the request and the argument |
| Environments.FindIn | lib/rapid/environment.rb:34-35 | `find` returns the first error whose definition id equals the name, or nothing when none does |
| Environments.FindErrorByName | lib/rapid/environment.rb:33-36 | a found error has the name as its id and is declared on the authenticator or the endpoint; nothing is found exactly when neither declares an error with that id; a match on the authenticator wins |
| Environments.RaiseError | lib/rapid/environment.rb:21-29 | an error class is raised with the fields; otherwise the error found by name is raised with the fields; a runtime error `No error defined named <name>` is raised exactly when nothing is found |
| Environments.RaiseClass | lib/rapid/environment.rb:22-23 | an error class is raised as given, with the fields |
| Environments.AuthenticatorFirst | lib/rapid/environment.rb:24-34 | a name is looked up on the authenticator's errors first, and a match there wins |
| Environments.EndpointSecond | lib/rapid/environment.rb:24-35 | with no match on the authenticator (or no authenticator), the endpoint's first match is raised |
| Environments.UnknownName | lib/rapid/environment.rb:26-27 | a name found nowhere raises `No error defined named <name>` |
| Environments.FirstMatchExample | lib/rapid/environment.rb:33-36 | the first of two errors with the same id wins; an endpoint-only error is found; an unknown name raises the runtime error |
| ObjectSets.ObjectSet.AddObject | lib/rapid/authenticator.rb:30 | `add_object` records the id |
| Manifests.ManifestErrors.Add | lib/apeye/definitions/authenticator.rb:26 | `errors.add` appends the report |
| RouteDsls.RouteGroup.constructor | lib/rapid/dsls/route_group.rb:17 | a group gets its id and parent, with no name, description, default controller or children |
| RouteDsls.RouteSet.Add | lib/rapid/dsls/route_set.rb:18 | the route is appended to the set |
| RouteDsls.VerbMethodInjective | lib/rapid/dsls/route_set.rb:21-25 | the five verb helpers set five distinct request methods |
| RouteDsls.RouteSetDsl.constructor | lib/rapid/dsls/route_set.rb:10-12 | a new builder has no open groups |
| RouteDsls.RouteSetDsl.Route | lib/rapid/dsls/route_set.rb:14-19 | the route is filed under the innermost open group (or none), whatever group the caller passed, and appended to the set |
| RouteDsls.RouteSetDsl.VerbRoute | lib/rapid/dsls/route_set.rb:21-25 | `get` … `delete` define and append the route with that request method, the path, the given controller (nil without one), the innermost open group and the other options |
| RouteDsls.RouteSetDsl.Group | lib/rapid/dsls/route_set.rb:27-33 | a group under the innermost one is open while its block runs; the stack is restored even when the block raises; the block's routes are filed under the group |
| RouteDsls.RouteSetDsl.Run | lib/rapid/dsls/route_set.rb:14-33 | a block's calls add, in order and up to the first exception, exactly the routes its plan foresees |
| RouteDsls.SetRaisedPrefix | lib/rapid/dsls/route_set.rb:30-32 | after an exception, no later call of the block takes effect |
| RouteDsls.RouteSetDsl.RouteKeepingGroup | lib/rapid/dsls/route_set.rb:14-19 | (corrected) an explicit group is kept; only a route without one goes under the innermost open group |
| RouteDsls.RouteGroupDsl.constructor | lib/rapid/dsls/route_group.rb:7-10 | the builder works on its route set and group |
| RouteDsls.RouteGroupDsl.Resolved | lib/rapid/dsls/route_group.rb:13 | the controller key if given (even nil), else the group's default controller; this group unless a group key is given; the other options unchanged |
| RouteDsls.RouteGroupDsl.RouteAsWritten | lib/rapid/dsls/route_group.rb:12-14 | (as written) the route gets the resolved controller but is filed under the route-set builder's innermost open group, not this group |
| RouteDsls.RouteGroupDsl.Route | lib/rapid/dsls/route_group.rb:12-14 | (corrected) the route gets the resolved controller and this group, unless a group key is given |
| RouteDsls.RouteGroupDsl.VerbRoute | lib/rapid/dsls/route_group.rb:23-27 | (corrected) through the corrected `Route`, the verb helpers define and append the route with that request method, the path, the given or default controller, this group unless one is given, and the other options |
| RouteDsls.RouteGroupDsl.Name | lib/rapid/dsls/route_group.rb:29-31 | sets the group's name only |
| RouteDsls.RouteGroupDsl.Description | lib/rapid/dsls/route_group.rb:33-35 | sets the group's description only |
| RouteDsls.RouteGroupDsl.Controller | lib/rapid/dsls/route_group.rb:37-39 | sets the group's default controller only |
| RouteDsls.RouteGroupDsl.Group | lib/rapid/dsls/route_group.rb:16-21 | (corrected) the child's id is `<id>.<child id>` and its parent this group; the block's routes, defined through the corrected `Route`, are filed under the child; the child is appended to this group's list only when the block does not raise |
| RouteDsls.RouteGroupDsl.Step | lib/rapid/dsls/route_group.rb:12-39 | (corrected) one builder call, with `route` as the corrected `Route`, does exactly what its command names and nothing else |
| RouteDsls.RouteGroupDsl.Run | lib/rapid/dsls/route_group.rb:12-39 | (corrected) a block's calls, with `route` as the corrected `Route`,, up to the first exception, add the foreseen routes and children in order, and leave name, description and controller as the last call set them |
| RouteDsls.GroupRaisedPrefix | lib/rapid/dsls/route_group.rb:19 | after an exception, no later call of the block takes effect |
| RouteDsls.FindingExample | lib/rapid/dsls/route_group.rb:13 | (as written) a route defined through the group builder outside any route-set group is filed under no group |
| RouteDsls.CorrectedExample | lib/rapid/dsls/route_group.rb:13 | (corrected) the same route is filed under its group, with the group's default controller |
| RouteDsls.NestingExample | lib/rapid/dsls/route_group.rb:13-21 | group `b` inside `a` gets id `a.b`; an explicit nil controller key overrides the default |
| RouteDsls.RaiseExample | lib/rapid/dsls/route_set.rb:27-33 | inside a raising group block, the route before the exception is kept under the group, the one after is never defined, and the stack is empty again |

## Left out

- I/O: `create_from_request` (merging query, body and path parameters with `DeepMerge`) and `rack_triplet` are left out. Argument sets start from the merged hash.
- Floating point: Decimal values are exact reals, so IEEE rounding of `to_f` is not modelled.
- Scalars.Registry: the registries' module (`Scalars.register`) is not part of this model. A registration is modelled as storing into an insertion-ordered hash, where a later registration under the same name replaces the earlier one.
- Scalars.Parse: Integer declares no `parse` block and Rapid's scalar base class is not part of this model. Integer's parse is taken to be the default, which passes the value through.
- Scalars.StringToI: the `0d` radix prefix that Ruby's base-10 integer parse also skips is not modelled.
- Values.ToS: Floats, arrays, hashes, objects, blocks and the Missing marker all get the one spelling `#<value>`, not Ruby's `to_s` of each.
- Values.Inspect: a string is quoted as it is; Ruby's escaping of `"`, `\` and control characters is not modelled.
- Responses.Response.AddHeader: a Float, Array or Hash header value is stored with the `#<value>` spelling of `Values.ToS`, not Ruby's `to_s` of it.
- FieldSets.FieldValue: an array field given a value that is neither nil nor an array fails with the missing-method error for `map`. That is what calling `map` on such a value raises; `Field#value` itself is not part of this model.
- RouteDsls.RouteGroupDsl.Group: the block's routes go through the corrected `Route` and so are filed under the child. As written, each goes under the route-set builder's innermost open group (see "Findings"); only `RouteAsWritten` models that.
- RouteDsls.RouteGroupDsl.VerbRoute: built on the corrected `Route`, so the route is filed under this group; as written it goes under the route-set builder's innermost open group.
- RouteDsls.RouteGroupDsl.Step: its `route` command is the corrected `Route`, not route_group.rb:13 as written.
- RouteDsls.RouteGroupDsl.Run: runs `Step`, so the routes of a block are filed as the corrected `Route` files them.
- RouteDsls.RouteGroupDsl.constructor: `RouteSet#dsl` is not part of this model. The builder's `setDsl`, standing for `@route_set.dsl`, is taken to be the route-set builder that is running the enclosing definition.
- ArgumentSetDsls.Declared: `Definitions::Argument` is not part of this model. A fresh argument is taken to start with `required` false, `default` nil, no description and no validations.
- RouteDsls.RouteGroup.constructor: `Rapid::RouteGroup` is not part of this model. Its name, description and default controller are taken to start nil, and its children empty.
- Scalars.Cast: `String#to_f` on a string that does not match the decimal pattern (Ruby reads a numeric prefix, or 0.0) is left undefined (None). Values with no `to_f`/`to_i` give None where Ruby raises.
- `Field#value` and `Field#raw_value_from_object` are not part of this model. Their behaviour is modelled after the field and object tests: symbol key, then string key, then reader; nil against `null`; `valid?` then `cast` for scalars; `include?` else `:skip` for objects; element-wise casting for arrays.
- Polymorph dispatch is not part of this model. It is modelled as "first matching option, rendered as `{option name => value}`".
- `FieldSpec.parse` is not part of this model: the default spec is kept as the string it would parse.
- `GeneratedHash` (the hash-with-object option) is not modelled; the output is a plain hash.
- The String and Boolean scalars and the field-spec options type are not part of this model. Stand-ins give them the behaviour the tests use.
- `ArgumentSet#dig` and `#empty?` are thin delegations to Ruby's Hash. `empty?` is the predicate `ArgumentSets.IsEmpty`, characterised by `ArgumentSets.EmptyIffAllMissing`; `dig` is left out.
- `check_for_missing_required_arguments` is never called and does nothing, so it is left out.
- ObjectSet's de-duplication and its recursion into each added class are not part of this model. `collate_objects` is modelled by the sequence of ids handed to `add_object`.
- The route-set builder's `Route.new` and the route group's `Route::REQUEST_METHODS` are not part of this model. The group builder's verb helpers are taken to be the same five verbs as the route set's.
- Exceptions are modelled as `Err` results; raised exception objects and their messages are modelled only as far as the error datatypes carry them. `raise_error` returns what would be raised.
- The request is reduced to what these operations read: the route-extracted arguments (the route's `extract_arguments` is outside this model), the endpoint's `include_field?`, and the potential errors of the authenticator and endpoint.
- `LookupEnvironment#call` is not part of this model. The resolver is given the request and the parsed source.
- User blocks are pure functions of what they are given. Side effects of blocks, including a block run twice, are not modelled; the lookup set counts resolver runs with a ghost counter.
- Concurrency is left out: Ruby's `||=` memoisation is modelled single-threaded.
- Argument paths record argument names rather than argument definition objects.

## Findings

| source | as written | input that shows it | evidently intended | confidence | as-written member | corrected member |
|---|---|---|---|---|---|---|
| lib/rapid/dsls/route_group.rb:13 with lib/rapid/dsls/route_set.rb:15 | the group builder passes `group: @group`, but the route-set builder then overwrites `options[:group]` with `@groups&.last` | a route defined with the group builder on `Rapid::RouteGroup.new("users", nil)` while no route-set group is open: the route is filed with group nil | the route is filed under the group whose builder defined it | not executed | RouteDsls.RouteGroupDsl.RouteAsWritten (exhibited by RouteDsls.FindingExample) | RouteDsls.RouteGroupDsl.Route with RouteDsls.RouteSetDsl.RouteKeepingGroup (exhibited by RouteDsls.CorrectedExample; used by RouteDsls.RouteGroupDsl.VerbRoute, RouteDsls.RouteGroupDsl.Group, RouteDsls.RouteGroupDsl.Step and RouteDsls.RouteGroupDsl.Run) |
