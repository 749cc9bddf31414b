/** Schema definitions: the declared argument sets, objects, enums and
    polymorphs that drive parsing and serialisation. User blocks are
    carried as pure functions. */
module Schema {
  import opened Wrappers
  import opened OrderedMaps
  import opened Values
  import Scalars

  /** What a definition's `type` can resolve to. `OtherT` stands for a
      class that is none of the kinds the engines handle. */
  datatype TypeRef =
    | NoType
    | ScalarT(scalar: Scalars.Scalar)
    | EnumT(enum: EnumDef)
    | ArgSetT(argSet: ArgumentSetDef)
    | ObjectT(obj: ObjectDef)
    | PolymorphT(poly: PolymorphDef)
    | OtherT(otherId: string)
  {
    /** `usable_for_argument?`: scalars, enums and argument sets. */
    predicate UsableForArgument() {
      ScalarT? || EnumT? || ArgSetT?
    }

    /** `usable_for_field?`: scalars, enums, objects and polymorphs. */
    predicate UsableForField() {
      ScalarT? || EnumT? || ObjectT? || PolymorphT?
    }

    /** The definition id of the referenced class; empty when there is none. */
    function Id(): string {
      match this
      case NoType => ""
      case ScalarT(s) => Scalars.Id(s)
      case EnumT(e) => e.id
      case ArgSetT(a) => a.id
      case ObjectT(o) => o.id
      case PolymorphT(p) => p.id
      case OtherT(id) => id
    }
  }

  /** An enum: its permitted values and an optional `cast` block. */
  datatype EnumDef = EnumDef(id: string, values: seq<Value>, cast: Option<Value -> Value>)

  datatype PolymorphOption = PolymorphOption(name: string, optionType: TypeRef, matcher: Value -> bool)

  /** A polymorph: options tried in order, the first whose matcher accepts wins. */
  datatype PolymorphDef = PolymorphDef(id: string, options: seq<PolymorphOption>)

  /** One declared argument. `validation` stands for `validate_value`: the
      list of messages from the argument's validation blocks. */
  datatype ArgumentDef = ArgumentDef(
    name: string,
    id: string,
    argType: TypeRef,
    isArray: bool,
    required: bool,
    default: Value,
    description: Option<string>,
    validation: Value -> seq<string>)

  /** The resolver of a lookup argument set: run with the request and the
      parsed source in reach. */
  type Resolver = (Option<Request>, OMap<string, Value>) -> Value

  /** An argument set definition. `lookup` marks a LookupArgumentSet, which
      adds the presence check of its `validate` hook, a resolver and
      potential errors. Arguments are held in declaration order. */
  datatype ArgumentSetDef = ArgumentSetDef(
    id: string,
    arguments: OMap<string, ArgumentDef>,
    lookup: bool,
    resolver: Option<Resolver>,
    potentialErrors: seq<string>)

  /** The `include` option of a field: nil, a boolean, a field-spec
      string, or something else. */
  datatype IncludeOpt = IncludeNil | IncludeBool(b: bool) | IncludeString(spec: string) | IncludeOther

  /** Where a field's raw value comes from: its own name, another key or
      method name (`backend :sym`), or a block. */
  datatype Backend = NoBackend | KeyBackend(key: string) | BlockBackend(block: Value -> Value)

  /** One declared field. */
  datatype FieldDef = FieldDef(
    name: string,
    id: string,
    description: Option<string>,
    fieldType: TypeRef,
    nullable: bool,
    isArray: bool,
    includeOpt: IncludeOpt,
    backend: Backend,
    condition: Option<(Value, Option<Request>) -> bool>)

  /** A field set: fields by name, in declaration order. */
  datatype FieldSetDef = FieldSetDef(fields: OMap<string, FieldDef>)

  /** An object definition: its conditions and its field set. */
  datatype ObjectDef = ObjectDef(
    id: string,
    conditions: seq<(Value, Option<Request>) -> Value>,
    fields: FieldSetDef)

  /** Every condition returns exactly `true` (anything else, truthy or not, excludes). */
  predicate AllConditionsTrue(conds: seq<(Value, Option<Request>) -> Value>, v: Value, req: Option<Request>)
    decreases |conds|
  {
    |conds| == 0 || (conds[0](v, req) == Bool(true) && AllConditionsTrue(conds[1..], v, req))
  }

  lemma {:induction false} AllConditionsTrueMeans(conds: seq<(Value, Option<Request>) -> Value>, v: Value, req: Option<Request>)
    ensures AllConditionsTrue(conds, v, req) <==> forall i :: 0 <= i < |conds| ==> conds[i](v, req) == Bool(true)
    decreases |conds|
  {
    if |conds| > 0 {
      AllConditionsTrueMeans(conds[1..], v, req);
      assert forall i :: 1 <= i < |conds| ==> conds[i] == conds[1..][i - 1];
    }
  }

  /** Keys of an argument map are the arguments' own names. */
  predicate ArgumentsKeyed(args: OMap<string, ArgumentDef>) {
    UniqueKeys(args) && forall i :: 0 <= i < |args| ==> args[i].0 == args[i].1.name
  }

  /** Keys of a field set are the fields' own names. */
  predicate FieldsKeyed(fields: OMap<string, FieldDef>) {
    UniqueKeys(fields) && forall i :: 0 <= i < |fields| ==> fields[i].0 == fields[i].1.name
  }

  /** Why building an argument set failed. */
  datatype Issue =
    | ParseError
    | InvalidScalar
    | ArrayExpected
    | ObjectExpected
    | InvalidEnumValue
    | ValidationErrors
    | MissingLookupValue
    | AmbiguousLookupValues

  /** Errors raised while building an argument set. Paths list the names of
      the arguments leading to the failure, outermost first. */
  datatype ArgumentError =
    | HashExpected
    | MissingArgument(argument: string, path: seq<string>)
    | InvalidArgument(argument: string, issue: Issue, index: Option<nat>, path: seq<string>, errors: seq<string>)

  /** Errors raised while generating output. */
  datatype SerializeError =
    | NullFieldValue(field: string, fieldPath: seq<PathSeg>)
    | InvalidScalarValue(scalarId: string, value: Value)
    | InvalidEnumOption(enumId: string, value: Value)
    | InvalidPolymorphValue(polymorphId: string, value: Value)
    | UndefinedMethod(methodName: string)
}
