/** Instances of object types: a definition wrapped around the value it
    renders, with the object-level inclusion test and the type references
    it hands to an object set. */
module Objects {
  import opened Wrappers
  import opened OrderedMaps
  import opened Values
  import Scalars
  import opened Schema
  import opened FieldSets
  import ObjectSets

  /** `Object.new(value)`: the type's definition and the value, kept as given. */
  datatype ObjectInstance = ObjectInstance(def: ObjectDef, value: Value) {
    /** `include?(request)` */
    predicate Include(req: Option<Request>)
      ensures Include(req) <==> forall i :: 0 <= i < |def.conditions| ==> def.conditions[i](value, req) == Bool(true)
    {
      AllConditionsTrueMeans(def.conditions, value, req);
      AllConditionsTrue(def.conditions, value, req)
    }

    /** `hash(request:, path:)` */
    function ToHash(req: Option<Request>, path: seq<PathSeg>): (r: Result<Value, SerializeError>)
      ensures r.Ok? ==> r.value.Hash?
      ensures r.Ok? && FieldsKeyed(def.fields.fields) ==>
                forall j :: 0 <= j < |def.fields.fields| ==>
                  && FieldEntry(def.fields.fields[j].1, value, req, path).Ok?
                  && Get(r.value.entries, Sym(def.fields.fields[j].1.name)) == FieldEntry(def.fields.fields[j].1, value, req, path).value
    {
      var r := GenerateHash(def.fields, value, req, path);
      if r.Ok? && FieldsKeyed(def.fields.fields) then
        GenerateHashOk(def.fields, value, req, path);
        r
      else r
    }
  }

  /** With no conditions an instance is always included. */
  lemma IncludeWithoutConditions(o: ObjectInstance, req: Option<Request>)
    requires |o.def.conditions| == 0
    ensures o.Include(req)
  {
  }

  /** Conditions returning `true` and then `false` exclude the instance; a
      truthy value other than `true` excludes it too. */
  lemma IncludeExamples(fields: FieldSetDef, v: Value, req: Option<Request>)
    ensures !ObjectInstance(ObjectDef("ExampleType", [
              (x: Value, r: Option<Request>) => Bool(true),
              (x: Value, r: Option<Request>) => Bool(false)], fields), v).Include(req)
    ensures !ObjectInstance(ObjectDef("ExampleType", [(x: Value, r: Option<Request>) => Int(1)], fields), v).Include(req)
    ensures ObjectInstance(ObjectDef("ExampleType", [
              (x: Value, r: Option<Request>) => Bool(true),
              (x: Value, r: Option<Request>) => Bool(true)], fields), v).Include(req)
  {
    var c := [(x: Value, r: Option<Request>) => Bool(true), (x: Value, r: Option<Request>) => Bool(false)];
    assert c[1..][0](v, req) == Bool(false);
    var t := [(x: Value, r: Option<Request>) => Bool(true), (x: Value, r: Option<Request>) => Bool(true)];
    assert t[1..][1..] == [];
  }

  /** A field of object type renders the nested instance's hash when that
      instance is included, and `:skip` when it is not. */
  lemma NestedObjectRendering(def: ObjectDef, v: Value, req: Option<Request>, path: seq<PathSeg>)
    ensures var o := ObjectInstance(def, v);
            CastValue(ObjectT(def), v, req, path) == if o.Include(req) then o.ToHash(req, path) else Ok(Skip)
  {
  }

  /** The ids `collate_objects` adds: the type of every field usable for
      fields, in field order. */
  function FieldTypeIds(fields: OMap<string, FieldDef>): (ids: seq<string>)
    ensures |ids| <= |fields|
    ensures forall id :: id in ids <==> exists j :: 0 <= j < |fields| && fields[j].1.fieldType.UsableForField() && fields[j].1.fieldType.Id() == id
  {
    if |fields| == 0 then []
    else
      var rest := FieldTypeIds(fields[1..]);
      assert forall j :: 1 <= j < |fields| ==> fields[j] == fields[1..][j - 1];
      if fields[0].1.fieldType.UsableForField() then [fields[0].1.fieldType.Id()] + rest else rest
  }

  lemma FieldTypeIdsAppend(fields: OMap<string, FieldDef>, k: string, f: FieldDef)
    ensures FieldTypeIds(fields + [(k, f)]) == FieldTypeIds(fields) + FieldTypeIds([(k, f)])
  {
    if |fields| > 0 {
      assert (fields + [(k, f)])[1..] == fields[1..] + [(k, f)];
      FieldTypeIdsAppend(fields[1..], k, f);
    }
  }

  /** `Object.collate_objects(set)`, with `objects` the set. */
  method CollateObjects(def: ObjectDef, objects: ObjectSets.ObjectSet)
    modifies objects
    ensures objects.added == old(objects.added) + FieldTypeIds(def.fields.fields)
  {
    var fields := def.fields.fields;
    var i := 0;
    while i < |fields|
      invariant 0 <= i <= |fields|
      invariant objects.added == old(objects.added) + FieldTypeIds(fields[..i])
    {
      FieldTypeIdsAppend(fields[..i], fields[i].0, fields[i].1);
      assert fields[..i + 1] == fields[..i] + [fields[i]];
      var t := fields[i].1.fieldType;
      if t.UsableForField() {
        objects.AddObject(t.Id());
      }
      i := i + 1;
    }
    assert fields[..i] == fields;
  }

  /** An object type with a string field and a field of another object type
      hands over both types and not itself. */
  lemma CollateExample(cat: ObjectDef)
    requires cat.id == "CatType"
    ensures var fields := [
              ("name", FieldDef("name", "ExampleType/NameField", None, ScalarT(Scalars.StringScalar()), false, false, IncludeNil, NoBackend, None)),
              ("cat", FieldDef("cat", "ExampleType/CatField", None, ObjectT(cat), false, false, IncludeNil, NoBackend, None))];
            FieldTypeIds(fields) == ["Apia/Scalars/String", "CatType"]
            && "ExampleType" !in FieldTypeIds(fields)
  {
    var fields := [
      ("name", FieldDef("name", "ExampleType/NameField", None, ScalarT(Scalars.StringScalar()), false, false, IncludeNil, NoBackend, None)),
      ("cat", FieldDef("cat", "ExampleType/CatField", None, ObjectT(cat), false, false, IncludeNil, NoBackend, None))];
    assert fields[1..] == [fields[1]];
    assert FieldTypeIds(fields[1..]) == ["CatType"];
  }

  /** A user type whose condition always excludes it. */
  function UserType(): ObjectDef {
    ObjectDef("UserType", [(x: Value, r: Option<Request>) => Bool(false)],
      FieldSetDef([("id", FieldDef("id", "UserType/IdField", None, ScalarT(Scalars.Integer), false, false, IncludeNil, NoBackend, None))]))
  }

  function BookType(): ObjectDef {
    ObjectDef("BookType", [], FieldSetDef([
      ("title", FieldDef("title", "BookType/TitleField", None, ScalarT(Scalars.StringScalar()), false, false, IncludeNil, NoBackend, None)),
      ("author", FieldDef("author", "BookType/AuthorField", None, ObjectT(UserType()), false, false, IncludeNil, NoBackend, None))]))
  }

  /** A book `{title: string, author: user}` whose user type is excluded by
      its condition renders the title only. */
  lemma ExcludedAuthorExample()
    ensures ObjectInstance(BookType(), Hash([(Sym("title"), Str("My Book")), (Sym("author"), Hash([(Sym("id"), Int(777))]))])).ToHash(None, [])
         == Ok(Hash([(Sym("title"), Str("My Book"))]))
  {
    var fs := BookType().fields;
    var source := Hash([(Sym("title"), Str("My Book")), (Sym("author"), Hash([(Sym("id"), Int(777))]))]);
    assert RawValue(fs.fields[0].1, source) == Ok(Str("My Book"));
    assert FieldEntry(fs.fields[0].1, source, None, []) == Ok(Some(Str("My Book")));
    assert RawValue(fs.fields[1].1, source) == Ok(Hash([(Sym("id"), Int(777))]));
    assert !AllConditionsTrue(UserType().conditions, Hash([(Sym("id"), Int(777))]), None);
    assert FieldEntry(fs.fields[1].1, source, None, []) == Ok(None);
    var out := [(Sym("title"), Str("My Book"))];
    assert Put([], Sym("title"), Str("My Book")) == out;
    GenerateFromStep(fs, source, None, [], 0, []);
    GenerateFromStep(fs, source, None, [], 1, out);
    assert GenerateFrom(fs, source, None, [], 2, out) == Ok(out);
    assert GenerateFrom(fs, source, None, [], 0, []) == Ok(out);
    assert GenerateHash(fs, source, None, []) == Ok(Hash(out));
  }
}
