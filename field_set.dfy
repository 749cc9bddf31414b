/** The field serialisation engine: a field set walked against a source
    value, field by field, into a symbol-keyed output hash. Per-field
    extraction (`Field#value`) is modelled after the behaviour the field
    and object tests pin down. */
module FieldSets {
  import opened Wrappers
  import opened OrderedMaps
  import opened Values
  import Scalars
  import opened Schema
  import Manifests

  /** The marker a nested object yields when its own conditions exclude it. */
  const Skip: Value := Sym("skip")

  /** `Field#include?(source, request)`: no condition, or the condition holds. */
  predicate FieldIncluded(f: FieldDef, source: Value, req: Option<Request>) {
    f.condition.None? || f.condition.value(source, req)
  }

  /** The sparse-fieldset gate: with an endpoint, `include_field?(path)`. */
  predicate PathSelected(req: Option<Request>, fieldPath: seq<PathSeg>) {
    !(req.Some? && req.value.includeField.Some? && !req.value.includeField.value(fieldPath))
  }

  /** Reading one key from a source: a Hash answers its symbol key when that
      key is present (even holding nil), else its string key, else nil; any
      other object answers the reader method of that name or fails. */
  function ReadKey(source: Value, key: string): (r: Result<Value, SerializeError>)
    ensures source.Hash? ==> r.Ok?
    ensures source.Hash? && HasKey(source.entries, Sym(key)) ==> r == Ok(Get(source.entries, Sym(key)).value)
    ensures source.Hash? && !HasKey(source.entries, Sym(key)) && !HasKey(source.entries, Str(key)) ==> r == Ok(Nil)
    ensures source.Obj? ==> (r.Ok? <==> HasKey(source.readers, key))
    ensures r.Err? ==> r.error == UndefinedMethod(key) && !source.Hash?
  {
    match source
    case Hash(entries) =>
      (match Get(entries, Sym(key))
       case Some(v) => Ok(v)
       case None => Ok(Get(entries, Str(key)).GetOr(Nil)))
    case Obj(readers) =>
      (match Get(readers, key)
       case Some(v) => Ok(v)
       case None => Err(UndefinedMethod(key)))
    case _ => Err(UndefinedMethod(key))
  }

  /** `raw_value_from_object`: by the field's backend. */
  function RawValue(f: FieldDef, source: Value): (r: Result<Value, SerializeError>)
    ensures f.backend.BlockBackend? ==> r == Ok(f.backend.block(source))
    ensures !f.backend.BlockBackend? ==> r == ReadKey(source, if f.backend.KeyBackend? then f.backend.key else f.name)
    ensures r.Err? ==> !f.backend.BlockBackend? && !source.Hash?
  {
    match f.backend
    case NoBackend => ReadKey(source, f.name)
    case KeyBackend(k) => ReadKey(source, k)
    case BlockBackend(b) => Ok(b(source))
  }

  /** `Field#value(source, request:, path:)`: nil against nullability, an
      array element-wise with each index on the path, else a typed cast. */
  function FieldValue(f: FieldDef, source: Value, req: Option<Request>, path: seq<PathSeg>): (r: Result<Value, SerializeError>)
    ensures r.Ok? && f.isArray ==> r.value.Nil? || r.value.Arr?
    decreases f, 2, 0
  {
    var raw :- RawValue(f, source);
    if raw.Nil? then
      if f.nullable then Ok(Nil) else Err(NullFieldValue(f.name, path))
    else if f.isArray then
      if raw.Arr? then
        var items :- CastItems(f, raw.items, req, path, 0);
        Ok(Arr(items))
      else
        Err(UndefinedMethod("map"))
    else
      CastValue(f.fieldType, raw, req, path)
  }

  /** The elements of an array field from index `j` on, each cast with its
      index appended to the path. */
  function CastItems(f: FieldDef, items: seq<Value>, req: Option<Request>, path: seq<PathSeg>, j: nat): (r: Result<seq<Value>, SerializeError>)
    requires j <= |items|
    ensures r.Ok? ==> |r.value| == |items| - j
    decreases f, 1, |items| - j
  {
    if j == |items| then Ok([])
    else
      var c :- CastValue(f.fieldType, items[j], req, path + [IndexSeg(j)]);
      var rest :- CastItems(f, items, req, path, j + 1);
      Ok([c] + rest)
  }

  /** A successful array cast holds each element's own cast, each element
      cast with its index on the path. */
  lemma {:induction false} CastItemsElementwise(f: FieldDef, items: seq<Value>, req: Option<Request>, path: seq<PathSeg>, j: nat)
    requires j <= |items| && CastItems(f, items, req, path, j).Ok?
    ensures forall k :: j <= k < |items| ==>
              CastValue(f.fieldType, items[k], req, path + [IndexSeg(k)]) == Ok(CastItems(f, items, req, path, j).value[k - j])
    decreases |items| - j
  {
    if j < |items| {
      CastItemsElementwise(f, items, req, path, j + 1);
    }
  }

  /** The typed cast of one non-nil value. */
  function CastValue(t: TypeRef, v: Value, req: Option<Request>, path: seq<PathSeg>): (r: Result<Value, SerializeError>)
    ensures r.Ok? && t.ObjectT? ==> r.value == Skip || r.value.Hash?
    ensures r.Ok? && t.ScalarT? ==> Scalars.Valid(t.scalar, v) && Scalars.Cast(t.scalar, v) == Some(r.value)
    ensures r.Ok? && t.EnumT? ==> r.value in t.enum.values && r.value == (if t.enum.cast.Some? then t.enum.cast.value(v) else v)
    decreases t, 1, 0
  {
    match t
    case ScalarT(sc) =>
      if Scalars.Valid(sc, v) then
        (match Scalars.Cast(sc, v)
         case Some(c) => Ok(c)
         case None => Err(InvalidScalarValue(Scalars.Id(sc), v)))
      else
        Err(InvalidScalarValue(Scalars.Id(sc), v))
    case EnumT(e) =>
      var c := if e.cast.Some? then e.cast.value(v) else v;
      if c in e.values then Ok(c) else Err(InvalidEnumOption(e.id, v))
    case ObjectT(o) =>
      if AllConditionsTrue(o.conditions, v, req) then GenerateHash(o.fields, v, req, path) else Ok(Skip)
    case PolymorphT(p) => CastOption(p, 0, v, req, path)
    case _ => Ok(v)
  }

  /** Polymorph dispatch from option `k` on: the first option whose matcher
      accepts the value renders it, tagged with the option's name. */
  function CastOption(p: PolymorphDef, k: nat, v: Value, req: Option<Request>, path: seq<PathSeg>): (r: Result<Value, SerializeError>)
    requires k <= |p.options|
    ensures r.Ok? ==> r.value.Hash? && |r.value.entries| == 1
    ensures (forall l :: k <= l < |p.options| ==> !p.options[l].matcher(v)) ==> r == Err(InvalidPolymorphValue(p.id, v))
    decreases p, 0, |p.options| - k
  {
    if k == |p.options| then Err(InvalidPolymorphValue(p.id, v))
    else if p.options[k].matcher(v) then
      var sub :- CastValue(p.options[k].optionType, v, req, path);
      Ok(Hash([(Sym(p.options[k].name), sub)]))
    else
      CastOption(p, k + 1, v, req, path)
  }

  /** What one field contributes: nothing (None) when its condition, the
      sparse-fieldset gate or a `:skip` value excludes it, else its value. */
  function FieldEntry(f: FieldDef, source: Value, req: Option<Request>, path: seq<PathSeg>): (r: Result<Option<Value>, SerializeError>)
    ensures !FieldIncluded(f, source, req) || !PathSelected(req, path + [FieldSeg(f.name)]) ==> r == Ok(None)
    ensures r.Ok? && r.value.Some? ==>
              FieldIncluded(f, source, req) && PathSelected(req, path + [FieldSeg(f.name)])
              && r.value.value != Skip && FieldValue(f, source, req, path + [FieldSeg(f.name)]) == Ok(r.value.value)
    ensures r.Err? ==> FieldValue(f, source, req, path + [FieldSeg(f.name)]) == Err(r.error)
    decreases f, 3, 0
  {
    if !FieldIncluded(f, source, req) then Ok(None)
    else if !PathSelected(req, path + [FieldSeg(f.name)]) then Ok(None)
    else
      var v :- FieldValue(f, source, req, path + [FieldSeg(f.name)]);
      if v == Skip then Ok(None) else Ok(Some(v))
  }

  /** `generate_hash`, from field `i` on, into `acc`. */
  function GenerateFrom(fs: FieldSetDef, source: Value, req: Option<Request>, path: seq<PathSeg>, i: nat, acc: OMap<Value, Value>): (r: Result<OMap<Value, Value>, SerializeError>)
    requires i <= |fs.fields|
    ensures r.Err? ==> exists j :: i <= j < |fs.fields| && FieldEntry(fs.fields[j].1, source, req, path) == Err(r.error)
    ensures (forall j :: i <= j < |fs.fields| ==> FieldEntry(fs.fields[j].1, source, req, path).Ok?) ==> r.Ok?
    decreases fs, 0, |fs.fields| - i
  {
    if i == |fs.fields| then Ok(acc)
    else
      var f := fs.fields[i].1;
      var entry :- FieldEntry(f, source, req, path);
      var acc' := if entry.Some? then Put(acc, Sym(f.name), entry.value) else acc;
      GenerateFrom(fs, source, req, path, i + 1, acc')
  }

  /** `generate_hash(source, request:, path:)` */
  function GenerateHash(fs: FieldSetDef, source: Value, req: Option<Request>, path: seq<PathSeg>): (r: Result<Value, SerializeError>)
    ensures r.Ok? ==> r.value.Hash?
    decreases fs, 1, 0
  {
    var entries :- GenerateFrom(fs, source, req, path, 0, []);
    Ok(Hash(entries))
  }

  // ---------------------------------------------------------------------
  // What the generated hash holds, field by field.

  /** The output keys of a field set's fields, in order. */
  function OutputKeys(fs: FieldSetDef): (ks: seq<Value>)
    ensures |ks| == |fs.fields|
    ensures forall j :: 0 <= j < |ks| ==> ks[j] == Sym(fs.fields[j].1.name)
  {
    seq(|fs.fields|, j requires 0 <= j < |fs.fields| => Sym(fs.fields[j].1.name))
  }

  /** What each field puts in the output, in order: None for a field left
      out (or one that fails). */
  ghost function Emitted(fs: FieldSetDef, source: Value, req: Option<Request>, path: seq<PathSeg>): (vs: seq<Option<Value>>)
    ensures |vs| == |fs.fields|
    ensures forall j :: 0 <= j < |fs.fields| && FieldEntry(fs.fields[j].1, source, req, path).Ok? ==>
              vs[j] == FieldEntry(fs.fields[j].1, source, req, path).value
  {
    seq(|fs.fields|, j requires 0 <= j < |fs.fields| =>
      var e := FieldEntry(fs.fields[j].1, source, req, path);
      if e.Ok? then e.value else None)
  }

  /** Output keys are distinct in a keyed field set. */
  lemma KeyedDistinct(fs: FieldSetDef)
    requires FieldsKeyed(fs.fields)
    ensures Distinct(OutputKeys(fs))
  {
    forall j, l | 0 <= j < l < |fs.fields|
      ensures OutputKeys(fs)[j] != OutputKeys(fs)[l]
    {
      assert fs.fields[j].0 != fs.fields[l].0;
    }
  }

  /** The first `i` fields have been walked into `acc`: it holds exactly
      their entries. */
  ghost predicate Walked(fs: FieldSetDef, source: Value, req: Option<Request>, path: seq<PathSeg>, i: nat, acc: OMap<Value, Value>)
    requires i <= |fs.fields|
  {
    Filled(OutputKeys(fs), Emitted(fs, source, req, path), i, acc)
  }

  /** Walking one more field that succeeds keeps the walk's invariant. */
  lemma WalkedStep(fs: FieldSetDef, source: Value, req: Option<Request>, path: seq<PathSeg>, i: nat, acc: OMap<Value, Value>)
    requires Distinct(OutputKeys(fs))
    requires i < |fs.fields| && Walked(fs, source, req, path, i, acc)
    requires FieldEntry(fs.fields[i].1, source, req, path).Ok?
    ensures var entry := FieldEntry(fs.fields[i].1, source, req, path).value;
            Walked(fs, source, req, path, i + 1, if entry.Some? then Put(acc, Sym(fs.fields[i].1.name), entry.value) else acc)
  {
    FilledStep(OutputKeys(fs), Emitted(fs, source, req, path), i, acc);
  }

  /** Walking the remaining fields, none of which fails, fills the whole set. */
  lemma {:induction false} GenerateFromFills(fs: FieldSetDef, source: Value, req: Option<Request>, path: seq<PathSeg>, i: nat, acc: OMap<Value, Value>)
    requires Distinct(OutputKeys(fs))
    requires i <= |fs.fields| && Walked(fs, source, req, path, i, acc)
    requires FirstFieldFailure(fs, source, req, path, i).None?
    ensures GenerateFrom(fs, source, req, path, i, acc).Ok?
    ensures Walked(fs, source, req, path, |fs.fields|, GenerateFrom(fs, source, req, path, i, acc).value)
    decreases |fs.fields| - i
  {
    if i < |fs.fields| {
      var entry := FieldEntry(fs.fields[i].1, source, req, path);
      var acc' := if entry.value.Some? then Put(acc, Sym(fs.fields[i].1.name), entry.value.value) else acc;
      WalkedStep(fs, source, req, path, i, acc);
      GenerateFromStep(fs, source, req, path, i, acc);
      GenerateFromFills(fs, source, req, path, i + 1, acc');
    }
  }

  /** No failure from field `i` on means every field from there succeeds. */
  lemma {:induction false} NoFieldFailure(fs: FieldSetDef, source: Value, req: Option<Request>, path: seq<PathSeg>, i: nat)
    requires i <= |fs.fields| && FirstFieldFailure(fs, source, req, path, i).None?
    ensures forall j :: i <= j < |fs.fields| ==> FieldEntry(fs.fields[j].1, source, req, path).Ok?
    decreases |fs.fields| - i
  {
    if i < |fs.fields| {
      NoFieldFailure(fs, source, req, path, i + 1);
    }
  }

  /** The first failing field's error from field `i` on, in order. */
  function FirstFieldFailure(fs: FieldSetDef, source: Value, req: Option<Request>, path: seq<PathSeg>, i: nat): Option<SerializeError>
    requires i <= |fs.fields|
    decreases |fs.fields| - i
  {
    if i == |fs.fields| then None
    else match FieldEntry(fs.fields[i].1, source, req, path)
      case Err(e) => Some(e)
      case Ok(_) => FirstFieldFailure(fs, source, req, path, i + 1)
  }

  /** Walking the remaining fields fails exactly with the first field failure. */
  lemma {:induction false} GenerateFromStops(fs: FieldSetDef, source: Value, req: Option<Request>, path: seq<PathSeg>, i: nat, acc: OMap<Value, Value>)
    requires i <= |fs.fields|
    ensures GenerateFrom(fs, source, req, path, i, acc).Err? <==> FirstFieldFailure(fs, source, req, path, i).Some?
    ensures GenerateFrom(fs, source, req, path, i, acc).Err? ==>
              GenerateFrom(fs, source, req, path, i, acc).error == FirstFieldFailure(fs, source, req, path, i).value
    decreases |fs.fields| - i
  {
    if i < |fs.fields| {
      var entry := FieldEntry(fs.fields[i].1, source, req, path);
      if entry.Ok? {
        var acc' := if entry.value.Some? then Put(acc, Sym(fs.fields[i].1.name), entry.value.value) else acc;
        GenerateFromStep(fs, source, req, path, i, acc);
        GenerateFromStops(fs, source, req, path, i + 1, acc');
      } else {
        GenerateFromFails(fs, source, req, path, i, acc);
      }
    }
  }

  /** The first field failure is the error of a field all of whose
      predecessors succeeded. */
  lemma {:induction false} FirstFieldFailureAt(fs: FieldSetDef, source: Value, req: Option<Request>, path: seq<PathSeg>, i: nat)
    requires i <= |fs.fields| && FirstFieldFailure(fs, source, req, path, i).Some?
    ensures exists j :: i <= j < |fs.fields|
              && FieldEntry(fs.fields[j].1, source, req, path) == Err(FirstFieldFailure(fs, source, req, path, i).value)
              && forall l :: i <= l < j ==> FieldEntry(fs.fields[l].1, source, req, path).Ok?
    decreases |fs.fields| - i
  {
    if FieldEntry(fs.fields[i].1, source, req, path).Ok? {
      FirstFieldFailureAt(fs, source, req, path, i + 1);
    }
  }

  /** A complete walk over fields that all succeed holds exactly the fields
      whose entry is a value. */
  lemma WalkedComplete(fs: FieldSetDef, source: Value, req: Option<Request>, path: seq<PathSeg>, m: OMap<Value, Value>)
    requires Walked(fs, source, req, path, |fs.fields|, m)
    requires forall j :: 0 <= j < |fs.fields| ==> FieldEntry(fs.fields[j].1, source, req, path).Ok?
    ensures forall j :: 0 <= j < |fs.fields| ==>
              Get(m, Sym(fs.fields[j].1.name)) == FieldEntry(fs.fields[j].1, source, req, path).value
    ensures forall k :: HasKey(m, k) ==> (exists j :: 0 <= j < |fs.fields| && k == Sym(fs.fields[j].1.name))
  {
    var vs := Emitted(fs, source, req, path);
    forall j | 0 <= j < |fs.fields|
      ensures Get(m, Sym(fs.fields[j].1.name)) == FieldEntry(fs.fields[j].1, source, req, path).value
    {
      assert Get(m, OutputKeys(fs)[j]) == vs[j];
    }
    forall k | HasKey(m, k)
      ensures exists j :: 0 <= j < |fs.fields| && k == Sym(fs.fields[j].1.name)
    {
      var j :| 0 <= j < |fs.fields| && k == OutputKeys(fs)[j];
    }
  }

  /** `generate_hash` over a keyed field set, when it succeeds: every field's
      entry succeeded and the output holds exactly the fields whose entry is
      a value, under their symbol names. */
  lemma GenerateHashOk(fs: FieldSetDef, source: Value, req: Option<Request>, path: seq<PathSeg>)
    requires FieldsKeyed(fs.fields)
    requires GenerateHash(fs, source, req, path).Ok?
    ensures var out := GenerateHash(fs, source, req, path).value.entries;
            (forall j :: 0 <= j < |fs.fields| ==>
               FieldEntry(fs.fields[j].1, source, req, path).Ok?
               && Get(out, Sym(fs.fields[j].1.name)) == FieldEntry(fs.fields[j].1, source, req, path).value)
            && (forall k :: HasKey(out, k) ==> (exists j :: 0 <= j < |fs.fields| && k == Sym(fs.fields[j].1.name)))
  {
    KeyedDistinct(fs);
    assert Walked(fs, source, req, path, 0, []);
    GenerateFromStops(fs, source, req, path, 0, []);
    GenerateFromFills(fs, source, req, path, 0, []);
    NoFieldFailure(fs, source, req, path, 0);
    WalkedComplete(fs, source, req, path, GenerateFrom(fs, source, req, path, 0, []).value);
  }

  /** `generate_hash` over a keyed field set, when it fails: the error is
      that of the first failing field. */
  lemma GenerateHashFails(fs: FieldSetDef, source: Value, req: Option<Request>, path: seq<PathSeg>)
    requires FieldsKeyed(fs.fields)
    requires GenerateHash(fs, source, req, path).Err?
    ensures exists j :: 0 <= j < |fs.fields|
              && FieldEntry(fs.fields[j].1, source, req, path) == Err(GenerateHash(fs, source, req, path).error)
              && forall l :: 0 <= l < j ==> FieldEntry(fs.fields[l].1, source, req, path).Ok?
  {
    GenerateFromStops(fs, source, req, path, 0, []);
    FirstFieldFailureAt(fs, source, req, path, 0);
  }

  /** A field whose condition is false is absent from the output, not nil. */
  lemma ConditionFalseAbsent(fs: FieldSetDef, source: Value, req: Option<Request>, path: seq<PathSeg>, i: nat)
    requires FieldsKeyed(fs.fields) && i < |fs.fields|
    requires !FieldIncluded(fs.fields[i].1, source, req)
    ensures var r := GenerateHash(fs, source, req, path);
            r.Ok? ==> !HasKey(r.value.entries, Sym(fs.fields[i].1.name))
  {
    if GenerateHash(fs, source, req, path).Ok? {
      GenerateHashOk(fs, source, req, path);
    }
  }

  /** A field the endpoint's sparse-fieldset test rejects is absent. */
  lemma FilteredAbsent(fs: FieldSetDef, source: Value, req: Option<Request>, path: seq<PathSeg>, i: nat)
    requires FieldsKeyed(fs.fields) && i < |fs.fields|
    requires req.Some? && req.value.includeField.Some?
    requires !req.value.includeField.value(path + [FieldSeg(fs.fields[i].1.name)])
    ensures var r := GenerateHash(fs, source, req, path);
            r.Ok? ==> !HasKey(r.value.entries, Sym(fs.fields[i].1.name))
  {
    if GenerateHash(fs, source, req, path).Ok? {
      GenerateHashOk(fs, source, req, path);
    }
  }

  /** A field whose value is `:skip` is absent; any other value of an
      included, selected field is stored under the symbol field name. */
  lemma IncludedStored(fs: FieldSetDef, source: Value, req: Option<Request>, path: seq<PathSeg>, i: nat, v: Value)
    requires FieldsKeyed(fs.fields) && i < |fs.fields|
    requires FieldIncluded(fs.fields[i].1, source, req)
    requires PathSelected(req, path + [FieldSeg(fs.fields[i].1.name)])
    requires FieldValue(fs.fields[i].1, source, req, path + [FieldSeg(fs.fields[i].1.name)]) == Ok(v)
    ensures var r := GenerateHash(fs, source, req, path);
            r.Ok? ==> Get(r.value.entries, Sym(fs.fields[i].1.name)) == if v == Skip then None else Some(v)
  {
    if GenerateHash(fs, source, req, path).Ok? {
      GenerateHashOk(fs, source, req, path);
    }
  }

  /** A failing field fails the whole hash when it is the first to fail. */
  lemma FirstFailurePropagates(fs: FieldSetDef, source: Value, req: Option<Request>, path: seq<PathSeg>, i: nat)
    requires FieldsKeyed(fs.fields) && i < |fs.fields|
    requires FieldEntry(fs.fields[i].1, source, req, path).Err?
    requires forall l :: 0 <= l < i ==> FieldEntry(fs.fields[l].1, source, req, path).Ok?
    ensures GenerateHash(fs, source, req, path) == Err(FieldEntry(fs.fields[i].1, source, req, path).error)
  {
    var r := GenerateHash(fs, source, req, path);
    if r.Ok? {
      GenerateHashOk(fs, source, req, path);
    } else {
      GenerateHashFails(fs, source, req, path);
      var j :| 0 <= j < |fs.fields|
               && FieldEntry(fs.fields[j].1, source, req, path) == Err(r.error)
               && forall l :: 0 <= l < j ==> FieldEntry(fs.fields[l].1, source, req, path).Ok?;
      assert j == i;
    }
  }

  /** Null handling: nil on a non-nullable field fails naming the field and
      its path; on a nullable one it is nil; on neither is the type consulted. */
  lemma NullHandling(f: FieldDef, source: Value, req: Option<Request>, path: seq<PathSeg>)
    requires RawValue(f, source) == Ok(Nil)
    ensures !f.nullable <==> FieldValue(f, source, req, path) == Err(NullFieldValue(f.name, path))
    ensures f.nullable <==> FieldValue(f, source, req, path) == Ok(Nil)
  {
  }

  /** A scalar field given a value of the wrong runtime type fails instead of
      coercing it. */
  lemma WrongScalarTypeFails(sc: Scalars.Scalar, v: Value, req: Option<Request>, path: seq<PathSeg>)
    requires !Scalars.Valid(sc, v)
    ensures CastValue(ScalarT(sc), v, req, path) == Err(InvalidScalarValue(Scalars.Id(sc), v))
  {
  }

  /** A nested object whose own conditions do not all return `true` yields
      `:skip`, so the field is omitted. */
  lemma ExcludedObjectSkipped(o: ObjectDef, v: Value, req: Option<Request>, path: seq<PathSeg>)
    requires !AllConditionsTrue(o.conditions, v, req)
    ensures CastValue(ObjectT(o), v, req, path) == Ok(Skip)
  {
  }

  /** Polymorph dispatch takes the first matching option, tagging its output. */
  lemma {:induction false} FirstMatchingOption(p: PolymorphDef, k: nat, m: nat, v: Value, req: Option<Request>, path: seq<PathSeg>)
    requires k <= m < |p.options|
    requires p.options[m].matcher(v)
    requires forall l :: k <= l < m ==> !p.options[l].matcher(v)
    ensures var sub := CastValue(p.options[m].optionType, v, req, path);
            CastOption(p, k, v, req, path) == if sub.Ok? then Ok(Hash([(Sym(p.options[m].name), sub.value)])) else Err(sub.error)
    decreases m - k
  {
    if k < m {
      FirstMatchingOption(p, k + 1, m, v, req, path);
    }
  }

  /** One step of the walk: a field that succeeds hands on the hash with
      its entry put. */
  lemma GenerateFromStep(fs: FieldSetDef, source: Value, req: Option<Request>, path: seq<PathSeg>, i: nat, acc: OMap<Value, Value>)
    requires i < |fs.fields|
    requires FieldEntry(fs.fields[i].1, source, req, path).Ok?
    ensures var f := fs.fields[i].1;
            var entry := FieldEntry(f, source, req, path).value;
            GenerateFrom(fs, source, req, path, i, acc)
              == GenerateFrom(fs, source, req, path, i + 1, if entry.Some? then Put(acc, Sym(f.name), entry.value) else acc)
  {
  }

  lemma GenerateFromFails(fs: FieldSetDef, source: Value, req: Option<Request>, path: seq<PathSeg>, i: nat, acc: OMap<Value, Value>)
    requires i < |fs.fields|
    requires FieldEntry(fs.fields[i].1, source, req, path).Err?
    ensures GenerateFrom(fs, source, req, path, i, acc) == Err(FieldEntry(fs.fields[i].1, source, req, path).error)
  {
  }

  /** Reading a raw value, as the field tests exercise it. */
  lemma RawValueExamples()
    ensures ReadKey(Hash([(Sym("id"), Int(1234))]), "id") == Ok(Int(1234))
    ensures ReadKey(Hash([(Sym("active"), Bool(false))]), "active") == Ok(Bool(false))
    ensures ReadKey(Hash([(Sym("active"), Nil), (Str("active"), Str("hello"))]), "active") == Ok(Nil)
    ensures ReadKey(Hash([(Str("active"), Str("hello"))]), "active") == Ok(Str("hello"))
    ensures ReadKey(Obj([("id", Int(1234))]), "id") == Ok(Int(1234))
    ensures ReadKey(Int(444), "id") == Err(UndefinedMethod("id"))
  {
  }

  /** A field set `{id: integer, name: string}`, `name` nullable or not. */
  function ScenarioFields(nameNullable: bool): FieldSetDef {
    FieldSetDef([
      ("id", FieldDef("id", "Example/IdField", None, ScalarT(Scalars.Integer), false, false, IncludeNil, NoBackend, None)),
      ("name", FieldDef("name", "Example/NameField", None, ScalarT(Scalars.StringScalar()), nameNullable, false, IncludeNil, NoBackend, None))])
  }

  /** The source of the scenarios below. */
  function ScenarioSource(): Value {
    Hash([(Sym("id"), Int(1)), (Sym("name"), Nil)])
  }

  /** With `name` nullable, walking `{id: 1, name: nil}` stores `id` first. */
  lemma NullableScenarioFirst()
    ensures GenerateFrom(ScenarioFields(true), ScenarioSource(), None, [], 0, [])
         == GenerateFrom(ScenarioFields(true), ScenarioSource(), None, [], 1, [(Sym("id"), Int(1))])
  {
    var fs := ScenarioFields(true);
    assert RawValue(fs.fields[0].1, ScenarioSource()) == Ok(Int(1));
    assert FieldEntry(fs.fields[0].1, ScenarioSource(), None, []) == Ok(Some(Int(1)));
    GenerateFromStep(fs, ScenarioSource(), None, [], 0, []);
  }

  /** A nullable `name` that is nil in the source is emitted as nil. */
  lemma NullableNameEntry()
    ensures FieldEntry(ScenarioFields(true).fields[1].1, ScenarioSource(), None, []) == Ok(Some(Nil))
  {
    assert RawValue(ScenarioFields(true).fields[1].1, ScenarioSource()) == Ok(Nil);
  }

  /** ... and then `name`, as nil. */
  lemma NullableScenarioSecond()
    ensures GenerateFrom(ScenarioFields(true), ScenarioSource(), None, [], 1, [(Sym("id"), Int(1))])
         == Ok([(Sym("id"), Int(1)), (Sym("name"), Nil)])
  {
    var fs := ScenarioFields(true);
    var acc := [(Sym("id"), Int(1))];
    NullableNameEntry();
    assert fs.fields[1].1.name == "name" && !HasKey(acc, Sym("name"));
    PutNew(acc, Sym("name"), Nil);
    GenerateFromStep(fs, ScenarioSource(), None, [], 1, acc);
    var out := acc + [(Sym("name"), Nil)];
    assert GenerateFrom(fs, ScenarioSource(), None, [], 2, out) == Ok(out);
    assert out == [(Sym("id"), Int(1)), (Sym("name"), Nil)];
  }

  /** With `name` nullable, `{id: 1, name: nil}` renders as itself. */
  lemma NullableScenario()
    ensures GenerateHash(ScenarioFields(true), ScenarioSource(), None, []) == Ok(ScenarioSource())
  {
    NullableScenarioFirst();
    NullableScenarioSecond();
    var out := GenerateFrom(ScenarioFields(true), ScenarioSource(), None, [], 0, []);
    assert out == Ok([(Sym("id"), Int(1)), (Sym("name"), Nil)]);
    assert GenerateHash(ScenarioFields(true), ScenarioSource(), None, []) == Ok(Hash(out.value));
  }

  /** With `name` not nullable, a source without `name` fails naming that
      field and its path. */
  lemma RequiredNullScenario()
    ensures GenerateHash(ScenarioFields(false), Hash([(Sym("id"), Int(1))]), None, [])
         == Err(NullFieldValue("name", [FieldSeg("name")]))
  {
    var fs := ScenarioFields(false);
    var source := Hash([(Sym("id"), Int(1))]);
    assert RawValue(fs.fields[0].1, source) == Ok(Int(1));
    assert FieldEntry(fs.fields[0].1, source, None, []) == Ok(Some(Int(1)));
    assert RawValue(fs.fields[1].1, source) == Ok(Nil);
    assert [] + [FieldSeg("name")] == [FieldSeg("name")];
    assert FieldEntry(fs.fields[1].1, source, None, []) == Err(NullFieldValue("name", [FieldSeg("name")]));
  }

  // ---------------------------------------------------------------------
  // The default field spec.

  /** One field's part of the default spec; None when `include` is `false`. */
  function SpecPart(key: string, f: FieldDef): (r: Option<string>)
    ensures r.None? <==> f.includeOpt == IncludeBool(false)
    ensures r.Some? ==> key <= r.value
    ensures r.Some? && (f.fieldType.ObjectT? || f.fieldType.PolymorphT?) && !f.includeOpt.IncludeString? ==> r.value == key + "[*]"
  {
    if f.includeOpt == IncludeBool(false) then None
    else if f.includeOpt.IncludeString? then Some(key + "[" + f.includeOpt.spec + "]")
    else if f.fieldType.ObjectT? || f.fieldType.PolymorphT? then Some(key + "[*]")
    else Some(key)
  }

  function SpecParts(fields: OMap<string, FieldDef>): (parts: seq<string>)
    ensures |parts| <= |fields|
    ensures parts == [] <==> forall i :: 0 <= i < |fields| ==> fields[i].1.includeOpt == IncludeBool(false)
  {
    if |fields| == 0 then []
    else
      match SpecPart(fields[0].0, fields[0].1)
      case Some(p) => [p] + SpecParts(fields[1..])
      case None => SpecParts(fields[1..])
  }

  /** `join(',')` */
  function Join(parts: seq<string>, sep: string): string {
    if |parts| == 0 then ""
    else if |parts| == 1 then parts[0]
    else parts[0] + sep + Join(parts[1..], sep)
  }

  /** The string the default spec is parsed from. */
  function DefaultSpec(fields: OMap<string, FieldDef>): (spec: string)
    ensures (forall i :: 0 <= i < |fields| ==> fields[i].1.includeOpt == IncludeBool(false)) ==> spec == ""
    ensures |fields| == 1 && fields[0].1.includeOpt != IncludeBool(false) ==> spec == SpecPart(fields[0].0, fields[0].1).value
  {
    Join(SpecParts(fields), ",")
  }

  /** The parts are, in order, exactly the parts of the fields not excluded. */
  lemma {:induction false} SpecPartsMembers(fields: OMap<string, FieldDef>)
    ensures forall i :: 0 <= i < |fields| && SpecPart(fields[i].0, fields[i].1).Some? ==>
              SpecPart(fields[i].0, fields[i].1).value in SpecParts(fields)
    ensures forall p :: p in SpecParts(fields) ==> exists i :: 0 <= i < |fields| && SpecPart(fields[i].0, fields[i].1) == Some(p)
    ensures |SpecParts(fields)| <= |fields|
  {
    if |fields| > 0 {
      SpecPartsMembers(fields[1..]);
      assert forall i :: 1 <= i < |fields| ==> fields[i] == fields[1..][i - 1];
    }
  }

  /** The parts of two runs of fields are the parts of the first followed
      by the parts of the second: one part per field, in field order. */
  lemma {:induction false} SpecPartsAppend(a: OMap<string, FieldDef>, b: OMap<string, FieldDef>)
    ensures SpecParts(a + b) == SpecParts(a) + SpecParts(b)
  {
    if |a| > 0 {
      assert (a + b)[0] == a[0];
      assert (a + b)[1..] == a[1..] + b;
      SpecPartsAppend(a[1..], b);
    } else {
      assert a + b == b;
    }
  }

  /** A single field contributes its own part, or nothing when excluded. */
  lemma SpecPartsOne(k: string, f: FieldDef)
    ensures SpecParts([(k, f)]) == if SpecPart(k, f).Some? then [SpecPart(k, f).value] else []
  {
    assert [(k, f)][1..] == [];
  }

  /** Adding a field to the end adds its part after a comma, or nothing
      when it is excluded. */
  lemma DefaultSpecAppend(fields: OMap<string, FieldDef>, k: string, f: FieldDef)
    ensures DefaultSpec(fields + [(k, f)]) ==
      match SpecPart(k, f)
      case None => DefaultSpec(fields)
      case Some(p) => if SpecParts(fields) == [] then p else DefaultSpec(fields) + "," + p
  {
    SpecPartsAppend(fields, [(k, f)]);
    SpecPartsOne(k, f);
    if SpecPart(k, f).Some? {
      JoinAppend(SpecParts(fields), SpecPart(k, f).value, ",");
    } else {
      assert SpecParts(fields) + [] == SpecParts(fields);
    }
  }

  /** Joining never puts a separator after the last part. */
  lemma {:induction false} JoinAppend(parts: seq<string>, p: string, sep: string)
    ensures Join(parts + [p], sep) == if |parts| == 0 then p else Join(parts, sep) + sep + p
  {
    if |parts| > 1 {
      assert (parts + [p])[1..] == parts[1..] + [p];
      JoinAppend(parts[1..], p, sep);
    }
    if |parts| == 1 {
      assert (parts + [p])[1..] == [p];
    }
  }

  /** The parts of the example below: `secret` is excluded. */
  lemma SpecPartsExample(sc: Scalars.Scalar, user: ObjectDef)
    ensures var id := FieldDef("id", "", None, ScalarT(sc), false, false, IncludeNil, NoBackend, None);
            var u := FieldDef("user", "", None, ObjectT(user), false, false, IncludeBool(true), NoBackend, None);
            var secret := FieldDef("secret", "", None, ScalarT(sc), false, false, IncludeBool(false), NoBackend, None);
            var tags := FieldDef("tags", "", None, ObjectT(user), false, true, IncludeString("name"), NoBackend, None);
            SpecParts([("id", id), ("user", u), ("secret", secret), ("tags", tags)]) == ["id", "user[*]", "tags[name]"]
  {
    var id := FieldDef("id", "", None, ScalarT(sc), false, false, IncludeNil, NoBackend, None);
    var u := FieldDef("user", "", None, ObjectT(user), false, false, IncludeBool(true), NoBackend, None);
    var secret := FieldDef("secret", "", None, ScalarT(sc), false, false, IncludeBool(false), NoBackend, None);
    var tags := FieldDef("tags", "", None, ObjectT(user), false, true, IncludeString("name"), NoBackend, None);
    var fields := [("id", id), ("user", u), ("secret", secret), ("tags", tags)];
    assert fields[1..] == [("user", u), ("secret", secret), ("tags", tags)];
    assert fields[1..][1..] == [("secret", secret), ("tags", tags)];
    assert fields[1..][1..][1..] == [("tags", tags)];
    assert "tags" + "[" + "name" + "]" == "tags[name]";
    assert "user" + "[*]" == "user[*]";
    assert SpecParts([("tags", tags)]) == ["tags[name]"];
    assert SpecParts([("secret", secret), ("tags", tags)]) == ["tags[name]"];
    assert SpecParts([("user", u), ("secret", secret), ("tags", tags)]) == ["user[*]", "tags[name]"];
  }

  /** Excluded fields leave no trace, object fields select everything below
      them and a string `include` is used as given. */
  lemma DefaultSpecExample(sc: Scalars.Scalar, user: ObjectDef)
    ensures var id := FieldDef("id", "", None, ScalarT(sc), false, false, IncludeNil, NoBackend, None);
            var u := FieldDef("user", "", None, ObjectT(user), false, false, IncludeBool(true), NoBackend, None);
            var secret := FieldDef("secret", "", None, ScalarT(sc), false, false, IncludeBool(false), NoBackend, None);
            var tags := FieldDef("tags", "", None, ObjectT(user), false, true, IncludeString("name"), NoBackend, None);
            DefaultSpec([("id", id), ("user", u), ("secret", secret), ("tags", tags)]) == "id,user[*],tags[name]"
  {
    SpecPartsExample(sc, user);
    JoinExample();
  }

  /** Parts are joined with commas and nothing after the last. */
  lemma JoinExample()
    ensures Join(["id", "user[*]", "tags[name]"], ",") == "id,user[*],tags[name]"
  {
    var parts := ["id", "user[*]", "tags[name]"];
    assert parts[1..] == ["user[*]", "tags[name]"];
    assert parts[1..][1..] == ["tags[name]"];
    assert Join(parts[1..], ",") == "user[*]" + "," + "tags[name]";
    assert "id" + "," + ("user[*]" + "," + "tags[name]") == "id,user[*],tags[name]";
  }

  // ---------------------------------------------------------------------
  // Schema-time validation.

  function InvalidTypeMessage(name: string): string {
    "Type for field " + name + " must be a scalar, enum or object"
  }

  /** The errors `validate` reports: one per field whose type is not usable
      for fields, in field order. */
  function InvalidTypeErrors(fields: OMap<string, FieldDef>, objectId: string): (errs: seq<Manifests.ManifestError>)
    ensures |errs| <= |fields|
    ensures forall e :: e in errs ==> e.objectId == objectId && e.code == "InvalidFieldType"
  {
    if |fields| == 0 then []
    else
      (if fields[0].1.fieldType.UsableForField() then []
       else [Manifests.ManifestError(objectId, "InvalidFieldType", InvalidTypeMessage(fields[0].1.name))])
      + InvalidTypeErrors(fields[1..], objectId)
  }

  /** Every reported error names an unusable field of the set, and every
      unusable field is reported. */
  lemma {:induction false} InvalidTypeErrorsExact(fields: OMap<string, FieldDef>, objectId: string)
    ensures forall e :: e in InvalidTypeErrors(fields, objectId) ==>
              e.objectId == objectId && e.code == "InvalidFieldType"
              && exists i :: 0 <= i < |fields| && !fields[i].1.fieldType.UsableForField() && e.message == InvalidTypeMessage(fields[i].1.name)
    ensures forall i :: 0 <= i < |fields| && !fields[i].1.fieldType.UsableForField() ==>
              Manifests.ManifestError(objectId, "InvalidFieldType", InvalidTypeMessage(fields[i].1.name)) in InvalidTypeErrors(fields, objectId)
    ensures InvalidTypeErrors(fields, objectId) == [] <==> forall i :: 0 <= i < |fields| ==> fields[i].1.fieldType.UsableForField()
  {
    if |fields| > 0 {
      InvalidTypeErrorsExact(fields[1..], objectId);
      assert forall i :: 1 <= i < |fields| ==> fields[i] == fields[1..][i - 1];
    }
  }

  lemma InvalidTypeErrorsAppend(fields: OMap<string, FieldDef>, k: string, f: FieldDef, objectId: string)
    ensures InvalidTypeErrors(fields + [(k, f)], objectId)
         == InvalidTypeErrors(fields, objectId) + InvalidTypeErrors([(k, f)], objectId)
  {
    if |fields| > 0 {
      assert (fields + [(k, f)])[1..] == fields[1..] + [(k, f)];
      InvalidTypeErrorsAppend(fields[1..], k, f, objectId);
    }
  }

  /** A Hash of fields, built by `add`, checked by `validate` and summarised
      by a memoised default spec. The spec is kept as the string that
      `FieldSpec.parse` receives. */
  class FieldSet {
    var fields: OMap<string, FieldDef>
    var specMemo: Option<string>

    constructor()
      ensures fields == [] && specMemo == None
    {
      fields := [];
      specMemo := None;
    }

    function Definition(): FieldSetDef
      reads this
    {
      FieldSetDef(fields)
    }

    /** `add(field)`: stored under its name, replacing a field of that name. */
    method Add(f: FieldDef) returns (r: FieldDef)
      modifies this
      ensures fields == Put(old(fields), f.name, f)
      ensures specMemo == old(specMemo)
      ensures r == f
    {
      fields := Put(fields, f.name, f);
      r := f;
    }

    /** `validate(errors, object)` */
    method Validate(errors: Manifests.ManifestErrors, objectId: string)
      modifies errors
      ensures errors.errors == old(errors.errors) + InvalidTypeErrors(fields, objectId)
    {
      var i := 0;
      while i < |fields|
        invariant 0 <= i <= |fields|
        invariant errors.errors == old(errors.errors) + InvalidTypeErrors(fields[..i], objectId)
      {
        InvalidTypeErrorsAppend(fields[..i], fields[i].0, fields[i].1, objectId);
        assert fields[..i + 1] == fields[..i] + [fields[i]];
        if !fields[i].1.fieldType.UsableForField() {
          errors.Add(objectId, "InvalidFieldType", InvalidTypeMessage(fields[i].1.name));
        }
        i := i + 1;
      }
      assert fields[..i] == fields;
    }

    /** `spec`: computed on first use, then answered from the memo. */
    method Spec() returns (s: string)
      modifies this
      ensures old(specMemo).Some? ==> s == old(specMemo).value && specMemo == old(specMemo)
      ensures old(specMemo).None? ==> s == DefaultSpec(fields) && specMemo == Some(s)
      ensures fields == old(fields)
    {
      if specMemo.Some? {
        s := specMemo.value;
      } else {
        s := DefaultSpec(fields);
        specMemo := Some(s);
      }
    }
  }
}
