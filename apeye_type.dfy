/** The older type renderer: a type's fields walked against a value into a
    string-keyed hash. A field's value is nil, an instance of a nested type,
    or a scalar instance rendered by its `cast`. */
module ApeyeTypes {
  import opened Wrappers
  import opened OrderedMaps
  import opened Values
  import opened Schema

  /** What a field declares as its type. */
  datatype ApeyeFieldType =
    | ScalarField(cast: Value -> Value)
    | TypeField(nested: ApeyeTypeDef)

  /** One field: its name, optional condition, the reader that extracts its
      raw value from the type's value, and its type. */
  datatype ApeyeField = ApeyeField(
    name: string,
    condition: Option<(Value, Option<Request>) -> bool>,
    extract: Value -> Value,
    fieldType: ApeyeFieldType)

  datatype ApeyeTypeDef = ApeyeTypeDef(
    conditions: seq<(Value, Option<Request>) -> Value>,
    fields: OMap<string, ApeyeField>)

  /** `include?(request)` of an instance of `def` wrapping `v`. */
  predicate Included(def: ApeyeTypeDef, v: Value, req: Option<Request>)
    ensures |def.conditions| == 0 ==> Included(def, v, req)
    ensures Included(def, v, req) <==> forall i :: 0 <= i < |def.conditions| ==> def.conditions[i](v, req) == Bool(true)
  {
    AllConditionsTrueMeans(def.conditions, v, req);
    AllConditionsTrue(def.conditions, v, req)
  }

  predicate ApeyeFieldIncluded(f: ApeyeField, v: Value, req: Option<Request>) {
    f.condition.None? || f.condition.value(v, req)
  }

  /** What one field contributes; None leaves the key out. */
  function FieldOutput(f: ApeyeField, v: Value, req: Option<Request>): (r: Option<Value>)
    ensures !ApeyeFieldIncluded(f, v, req) ==> r.None?
    ensures ApeyeFieldIncluded(f, v, req) && f.extract(v).Nil? ==> r == Some(Nil)
    decreases f, 0, 0
  {
    if !ApeyeFieldIncluded(f, v, req) then None
    else
      var raw := f.extract(v);
      if raw.Nil? then Some(Nil)
      else
        match f.fieldType
        case ScalarField(cast) => Some(cast(raw))
        case TypeField(nested) =>
          if Included(nested, raw, req) then Some(Hash(TypeHash(nested, raw, req))) else None
  }

  /** The walk over the fields from `i` on, into `acc`. */
  function HashFrom(def: ApeyeTypeDef, v: Value, req: Option<Request>, i: nat, acc: OMap<Value, Value>): (r: OMap<Value, Value>)
    requires i <= |def.fields|
    ensures forall k :: HasKey(r, k) ==> HasKey(acc, k) || exists j :: i <= j < |def.fields| && k == Str(def.fields[j].1.name)
    decreases def, 0, |def.fields| - i
  {
    if i == |def.fields| then acc
    else
      var f := def.fields[i].1;
      var out := FieldOutput(f, v, req);
      var acc' := if out.Some? then Put(acc, Str(f.name), out.value) else acc;
      assert forall k :: HasKey(acc', k) ==> HasKey(acc, k) || k == Str(f.name) by {
        if out.Some? {
          PutHasKey(acc, Str(f.name), out.value);
        }
      }
      HashFrom(def, v, req, i + 1, acc')
  }

  /** `hash(request:)` */
  function TypeHash(def: ApeyeTypeDef, v: Value, req: Option<Request>): (h: OMap<Value, Value>)
    ensures forall k :: HasKey(h, k) ==> exists j :: 0 <= j < |def.fields| && k == Str(def.fields[j].1.name)
    decreases def, 1, 0
  {
    HashFrom(def, v, req, 0, [])
  }

  function OutputKeys(def: ApeyeTypeDef): (ks: seq<Value>)
    ensures |ks| == |def.fields|
    ensures forall j :: 0 <= j < |ks| ==> ks[j] == Str(def.fields[j].1.name)
  {
    seq(|def.fields|, j requires 0 <= j < |def.fields| => Str(def.fields[j].1.name))
  }

  ghost function Outputs(def: ApeyeTypeDef, v: Value, req: Option<Request>): (os: seq<Option<Value>>)
    ensures |os| == |def.fields|
    ensures forall j :: 0 <= j < |os| ==> os[j] == FieldOutput(def.fields[j].1, v, req)
  {
    seq(|def.fields|, j requires 0 <= j < |def.fields| => FieldOutput(def.fields[j].1, v, req))
  }

  /** Keys of a type's fields are its fields' own names. */
  predicate Keyed(def: ApeyeTypeDef) {
    UniqueKeys(def.fields) && forall i :: 0 <= i < |def.fields| ==> def.fields[i].0 == def.fields[i].1.name
  }

  lemma {:induction false} HashFromFilled(def: ApeyeTypeDef, v: Value, req: Option<Request>, i: nat, acc: OMap<Value, Value>)
    requires i <= |def.fields| && Distinct(OutputKeys(def))
    requires Filled(OutputKeys(def), Outputs(def, v, req), i, acc)
    ensures Filled(OutputKeys(def), Outputs(def, v, req), |def.fields|, HashFrom(def, v, req, i, acc))
    decreases |def.fields| - i
  {
    if i < |def.fields| {
      var os := Outputs(def, v, req);
      var f := def.fields[i].1;
      assert os[i] == FieldOutput(f, v, req);
      FilledStep(OutputKeys(def), os, i, acc);
      HashFromFilled(def, v, req, i + 1, if os[i].Some? then Put(acc, Str(f.name), os[i].value) else acc);
    }
  }

  /** The rendered hash holds, under each field's name as a string, exactly
      what that field contributes, and no other key. */
  lemma TypeHashCharacterised(def: ApeyeTypeDef, v: Value, req: Option<Request>)
    requires Keyed(def)
    ensures var h := TypeHash(def, v, req);
            (forall j :: 0 <= j < |def.fields| ==> Get(h, Str(def.fields[j].1.name)) == FieldOutput(def.fields[j].1, v, req))
            && (forall k :: HasKey(h, k) ==> (exists j :: 0 <= j < |def.fields| && k == Str(def.fields[j].1.name)))
  {
    forall j, l | 0 <= j < l < |def.fields|
      ensures OutputKeys(def)[j] != OutputKeys(def)[l]
    {
      assert def.fields[j].0 != def.fields[l].0;
    }
    assert Filled(OutputKeys(def), Outputs(def, v, req), 0, []);
    HashFromFilled(def, v, req, 0, []);
    var h := TypeHash(def, v, req);
    var os := Outputs(def, v, req);
    forall j | 0 <= j < |def.fields|
      ensures Get(h, Str(def.fields[j].1.name)) == FieldOutput(def.fields[j].1, v, req)
    {
      assert Get(h, OutputKeys(def)[j]) == os[j];
    }
    forall k | HasKey(h, k)
      ensures exists j :: 0 <= j < |def.fields| && k == Str(def.fields[j].1.name)
    {
      var j :| 0 <= j < |def.fields| && k == OutputKeys(def)[j];
    }
  }

  /** Output keys are strings, never symbols. */
  lemma KeysAreStrings(def: ApeyeTypeDef, v: Value, req: Option<Request>, k: Value)
    requires Keyed(def) && HasKey(TypeHash(def, v, req), k)
    ensures k.Str?
  {
    TypeHashCharacterised(def, v, req);
    var j :| 0 <= j < |def.fields| && k == Str(def.fields[j].1.name);
  }

  /** A field of nested type renders the nested hash when the nested instance
      is included and is left out when it is not; a scalar field renders its
      cast; a nil value is stored as nil without any nullability check. */
  lemma FieldOutputCases(f: ApeyeField, v: Value, req: Option<Request>)
    requires ApeyeFieldIncluded(f, v, req)
    ensures var raw := f.extract(v);
            && (raw.Nil? ==> FieldOutput(f, v, req) == Some(Nil))
            && (!raw.Nil? && f.fieldType.ScalarField? ==> FieldOutput(f, v, req) == Some(f.fieldType.cast(raw)))
            && (!raw.Nil? && f.fieldType.TypeField? ==>
                  FieldOutput(f, v, req) == if Included(f.fieldType.nested, raw, req) then Some(Hash(TypeHash(f.fieldType.nested, raw, req))) else None)
  {
  }
}
