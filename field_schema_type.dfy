/** The introspection schema of a field: the fields it is described by and
    the values its backends derive from a field definition. */
module FieldSchemaTypes {
  import opened Wrappers
  import opened OrderedMaps
  import opened Values
  import Scalars
  import opened Schema
  import opened FieldSets

  /** The `spec` backend: `all` is whether `include` is nil or `true`, and
      `spec` is present only for a string `include`. */
  function SpecBackend(f: FieldDef): (h: OMap<Value, Value>)
    ensures Get(h, Sym("all")) == Some(Bool(f.includeOpt.IncludeNil? || f.includeOpt == IncludeBool(true)))
    ensures HasKey(h, Sym("spec")) <==> f.includeOpt.IncludeString?
    ensures f.includeOpt.IncludeString? ==> Get(h, Sym("spec")) == Some(Str(f.includeOpt.spec))
    ensures forall k :: HasKey(h, k) ==> k == Sym("all") || k == Sym("spec")
  {
    var all := [(Sym("all"), Bool(f.includeOpt.IncludeNil? || f.includeOpt == IncludeBool(true)))];
    if f.includeOpt.IncludeString? then
      KeysAppend(all, Sym("spec"), Str(f.includeOpt.spec));
      all + [(Sym("spec"), Str(f.includeOpt.spec))]
    else all
  }

  /** `include false` gives `all: false` and no `spec` key. */
  lemma ExcludedSpec(f: FieldDef)
    requires f.includeOpt == IncludeBool(false)
    ensures SpecBackend(f) == [(Sym("all"), Bool(false))]
  {
  }

  /** A field definition as the object the backends are handed: it answers
      `id`, `name`, `description`, `type` (an object answering `id`),
      `null?`, `array?` and `include`. */
  function Described(f: FieldDef): Value {
    Obj([
      ("id", Str(f.id)),
      ("name", Str(f.name)),
      ("description", if f.description.Some? then Str(f.description.value) else Nil),
      ("type", Obj([("id", Str(f.fieldType.Id()))])),
      ("null?", Bool(f.nullable)),
      ("array?", Bool(f.isArray)),
      ("include", IncludeValue(f.includeOpt))])
  }

  /** `include` as a value; any other option is some value that is neither
      nil, `true` nor a String, which is all the spec backend asks of it. */
  function IncludeValue(opt: IncludeOpt): Value {
    match opt
    case IncludeNil => Nil
    case IncludeBool(b) => Bool(b)
    case IncludeString(spec) => Str(spec)
    case IncludeOther => Sym("other")
  }

  /** Calling a reader method of an object; nil for anything else. */
  function ReaderOf(v: Value, name: string): Value {
    if v.Obj? then Get(v.readers, name).GetOr(Nil) else Nil
  }

  /** The reader values of a described field. */
  lemma DescribedReaders(f: FieldDef)
    ensures var rs := Described(f).readers;
      && Get(rs, "id") == Some(Str(f.id))
      && Get(rs, "name") == Some(Str(f.name))
      && Get(rs, "description") == Some(if f.description.Some? then Str(f.description.value) else Nil)
      && Get(rs, "type") == Some(Obj([("id", Str(f.fieldType.Id()))]))
      && Get(rs, "null?") == Some(Bool(f.nullable))
      && Get(rs, "array?") == Some(Bool(f.isArray))
      && Get(rs, "include") == Some(IncludeValue(f.includeOpt))
  {
    var rs := Described(f).readers;
    assert "name"[0] != "type"[0];
    assert UniqueKeys(rs);
    GetAt(rs, 0);
    GetAt(rs, 1);
    GetAt(rs, 2);
    GetAt(rs, 3);
    GetAt(rs, 4);
    GetAt(rs, 5);
    GetAt(rs, 6);
  }

  /** The `type`, `null` and `array` backends. */
  function TypeBlock(v: Value): Value {
    ReaderOf(ReaderOf(v, "type"), "id")
  }

  function NullBlock(v: Value): Value {
    ReaderOf(v, "null?")
  }

  function ArrayBlock(v: Value): Value {
    ReaderOf(v, "array?")
  }

  /** The `spec` backend as a block over the described field. */
  function SpecBlock(v: Value): Value {
    var inc := ReaderOf(v, "include");
    var all := [(Sym("all"), Bool(inc.Nil? || inc == Bool(true)))];
    Hash(if inc.Str? then all + [(Sym("spec"), inc)] else all)
  }

  /** The block, given a described field, builds exactly the hash whose
      keys and values `SpecBackend` promises. */
  lemma SpecBlockDescribed(f: FieldDef)
    ensures SpecBlock(Described(f)) == Hash(SpecBackend(f))
  {
    DescribedReaders(f);
  }

  /** Stand-ins for the String and Boolean scalars and the spec options
      type, which are not part of this model. */
  function BooleanScalar(): Scalars.Scalar {
    Scalars.Custom("Apia/Scalars/Boolean", (v: Value) => Ok(v), (v: Value) => v.Bool?, (v: Value) => Some(v))
  }

  function SpecOptionsType(): ObjectDef {
    ObjectDef("Apia/Schema/FieldSpecOptionsSchemaType", [], FieldSetDef([]))
  }

  function SchemaField(name: string, t: TypeRef, nullable: bool, backend: Backend): FieldDef {
    FieldDef(name, "Apia/Schema/FieldSchemaType/" + name, None, t, nullable, false, IncludeNil, backend, None)
  }

  /** The fields of the field schema type, as declared. */
  function IdField(): FieldDef { SchemaField("id", ScalarT(Scalars.StringScalar()), false, NoBackend) }
  function NameField(): FieldDef { SchemaField("name", ScalarT(Scalars.StringScalar()), false, NoBackend) }
  function DescriptionField(): FieldDef { SchemaField("description", ScalarT(Scalars.StringScalar()), true, NoBackend) }
  function TypeField(): FieldDef { SchemaField("type", ScalarT(Scalars.StringScalar()), false, BlockBackend(TypeBlock)) }
  function NullField(): FieldDef { SchemaField("null", ScalarT(BooleanScalar()), false, BlockBackend(NullBlock)) }
  function ArrayField(): FieldDef { SchemaField("array", ScalarT(BooleanScalar()), false, BlockBackend(ArrayBlock)) }
  function SpecField(): FieldDef { SchemaField("spec", ObjectT(SpecOptionsType()), false, BlockBackend(SpecBlock)) }

  function FieldSchemaFields(): FieldSetDef {
    FieldSetDef([
      ("id", IdField()),
      ("name", NameField()),
      ("description", DescriptionField()),
      ("type", TypeField()),
      ("null", NullField()),
      ("array", ArrayField()),
      ("spec", SpecField())])
  }

  /** Only `description` may be null. */
  lemma OnlyDescriptionNullable()
    ensures FieldsKeyed(FieldSchemaFields().fields)
    ensures forall i :: 0 <= i < |FieldSchemaFields().fields| ==>
              (FieldSchemaFields().fields[i].1.nullable <==> FieldSchemaFields().fields[i].0 == "description")
  {
  }

  /** A scalar field whose raw value is a non-nil fixed point of its
      scalar's cast renders as that value. */
  lemma ScalarFieldValue(f: FieldDef, src: Value, v: Value, path: seq<PathSeg>)
    requires f.fieldType.ScalarT? && !f.isArray && !v.Nil?
    requires RawValue(f, src) == Ok(v)
    requires Scalars.Valid(f.fieldType.scalar, v) && Scalars.Cast(f.fieldType.scalar, v) == Some(v)
    ensures FieldValue(f, src, None, path) == Ok(v)
  {
  }

  /** The fields of the schema render a described field without error:
      `id`, `name` and `description` by reading the like-named readers,
      `type`, `null` and `array` through their backends, `spec` as an
      instance of the options type. */
  lemma IdFieldValue(f: FieldDef)
    ensures FieldValue(IdField(), Described(f), None, [FieldSeg("id")]) == Ok(Str(f.id))
  {
    assert RawValue(IdField(), Described(f)) == Ok(Str(f.id)) by {
      DescribedReaders(f);
    }
    ScalarFieldValue(IdField(), Described(f), Str(f.id), [FieldSeg("id")]);
  }

  lemma NameFieldValue(f: FieldDef)
    ensures FieldValue(NameField(), Described(f), None, [FieldSeg("name")]) == Ok(Str(f.name))
  {
    assert RawValue(NameField(), Described(f)) == Ok(Str(f.name)) by {
      DescribedReaders(f);
    }
    ScalarFieldValue(NameField(), Described(f), Str(f.name), [FieldSeg("name")]);
  }

  lemma DescriptionFieldValue(f: FieldDef)
    ensures FieldValue(DescriptionField(), Described(f), None, [FieldSeg("description")]).Ok?
  {
    if f.description.Some? {
      GivenDescriptionValue(f);
    } else {
      NoDescriptionValue(f);
    }
  }

  lemma GivenDescriptionValue(f: FieldDef)
    requires f.description.Some?
    ensures FieldValue(DescriptionField(), Described(f), None, [FieldSeg("description")]) == Ok(Str(f.description.value))
  {
    var v := Str(f.description.value);
    assert RawValue(DescriptionField(), Described(f)) == Ok(v) by {
      DescriptionRead(f);
    }
    ScalarFieldValue(DescriptionField(), Described(f), v, [FieldSeg("description")]);
  }

  lemma DescriptionRead(f: FieldDef)
    ensures ReadKey(Described(f), "description") == Ok(if f.description.Some? then Str(f.description.value) else Nil)
  {
    DescribedReaders(f);
  }

  lemma NoDescriptionValue(f: FieldDef)
    requires f.description.None?
    ensures FieldValue(DescriptionField(), Described(f), None, [FieldSeg("description")]) == Ok(Nil)
  {
    assert RawValue(DescriptionField(), Described(f)) == Ok(Nil) by {
      DescriptionRead(f);
    }
  }

  lemma TypeFieldValue(f: FieldDef)
    ensures FieldValue(TypeField(), Described(f), None, [FieldSeg("type")]) == Ok(Str(f.fieldType.Id()))
  {
    var v := Str(f.fieldType.Id());
    assert RawValue(TypeField(), Described(f)) == Ok(v) by {
      TypeRead(f);
    }
    ScalarFieldValue(TypeField(), Described(f), v, [FieldSeg("type")]);
  }

  lemma TypeRead(f: FieldDef)
    ensures TypeBlock(Described(f)) == Str(f.fieldType.Id())
  {
    DescribedReaders(f);
  }

  lemma NullFieldValue(f: FieldDef)
    ensures FieldValue(NullField(), Described(f), None, [FieldSeg("null")]) == Ok(Bool(f.nullable))
  {
    var v := Bool(f.nullable);
    assert RawValue(NullField(), Described(f)) == Ok(v) by {
      assert NullBlock(Described(f)) == v by {
        DescribedReaders(f);
      }
    }
    ScalarFieldValue(NullField(), Described(f), v, [FieldSeg("null")]);
  }

  lemma ArrayFieldValue(f: FieldDef)
    ensures FieldValue(ArrayField(), Described(f), None, [FieldSeg("array")]) == Ok(Bool(f.isArray))
  {
    var v := Bool(f.isArray);
    assert RawValue(ArrayField(), Described(f)) == Ok(v) by {
      assert ArrayBlock(Described(f)) == v by {
        DescribedReaders(f);
      }
    }
    ScalarFieldValue(ArrayField(), Described(f), v, [FieldSeg("array")]);
  }

  lemma SpecFieldValue(f: FieldDef)
    ensures FieldValue(SpecField(), Described(f), None, [FieldSeg("spec")]).Ok?
  {
    var src := Described(f);
    var v := SpecBlock(src);
    assert v.Hash?;
    assert RawValue(SpecField(), src) == Ok(v);
    assert GenerateHash(SpecOptionsType().fields, v, None, [FieldSeg("spec")]) == Ok(Hash([]));
    assert CastValue(SpecField().fieldType, v, None, [FieldSeg("spec")]) == Ok(Hash([]));
  }

  /** No field of the schema fails on a described field. */
  lemma EntryOk(f: FieldDef, sf: FieldDef)
    requires sf.condition.None?
    requires FieldValue(sf, Described(f), None, [FieldSeg(sf.name)]).Ok?
    ensures FieldEntry(sf, Described(f), None, []).Ok?
  {
    assert [] + [FieldSeg(sf.name)] == [FieldSeg(sf.name)];
  }

  lemma IdEntryOk(f: FieldDef)
    ensures FieldEntry(IdField(), Described(f), None, []).Ok?
  {
    IdFieldValue(f);
    EntryOk(f, IdField());
  }

  lemma NameEntryOk(f: FieldDef)
    ensures FieldEntry(NameField(), Described(f), None, []).Ok?
  {
    NameFieldValue(f);
    EntryOk(f, NameField());
  }

  lemma DescriptionEntryOk(f: FieldDef)
    ensures FieldEntry(DescriptionField(), Described(f), None, []).Ok?
  {
    DescriptionFieldValue(f);
    EntryOk(f, DescriptionField());
  }

  lemma TypeEntryOk(f: FieldDef)
    ensures FieldEntry(TypeField(), Described(f), None, []).Ok?
  {
    TypeFieldValue(f);
    EntryOk(f, TypeField());
  }

  lemma NullEntryOk(f: FieldDef)
    ensures FieldEntry(NullField(), Described(f), None, []).Ok?
  {
    NullFieldValue(f);
    EntryOk(f, NullField());
  }

  lemma ArrayEntryOk(f: FieldDef)
    ensures FieldEntry(ArrayField(), Described(f), None, []).Ok?
  {
    ArrayFieldValue(f);
    EntryOk(f, ArrayField());
  }

  lemma SpecEntryOk(f: FieldDef)
    ensures FieldEntry(SpecField(), Described(f), None, []).Ok?
  {
    SpecFieldValue(f);
    EntryOk(f, SpecField());
  }

  lemma SchemaEntriesOk(f: FieldDef)
    ensures forall j :: 0 <= j < |FieldSchemaFields().fields| ==> FieldEntry(FieldSchemaFields().fields[j].1, Described(f), None, []).Ok?
  {
    var fs := FieldSchemaFields().fields;
    IdEntryOk(f);
    NameEntryOk(f);
    DescriptionEntryOk(f);
    TypeEntryOk(f);
    NullEntryOk(f);
    ArrayEntryOk(f);
    SpecEntryOk(f);
    forall j | 0 <= j < |fs| ensures FieldEntry(fs[j].1, Described(f), None, []).Ok? {
      assert j in {0, 1, 2, 3, 4, 5, 6};
    }
  }

  /** Rendering a described field stores its type's id under `type`, and
      its `null?` and `array?` flags under `null` and `array`. */
  lemma DescribedRendering(f: FieldDef)
    ensures var r := GenerateHash(FieldSchemaFields(), Described(f), None, []);
            && r.Ok?
            && Get(r.value.entries, Sym("type")) == Some(Str(f.fieldType.Id()))
            && Get(r.value.entries, Sym("null")) == Some(Bool(f.nullable))
            && Get(r.value.entries, Sym("array")) == Some(Bool(f.isArray))
  {
    var fs := FieldSchemaFields();
    var src := Described(f);
    SchemaEntriesOk(f);
    assert GenerateHash(fs, src, None, []).Ok?;
    OnlyDescriptionNullable();
    assert [] + [FieldSeg("type")] == [FieldSeg("type")];
    assert [] + [FieldSeg("null")] == [FieldSeg("null")];
    assert [] + [FieldSeg("array")] == [FieldSeg("array")];
    TypeFieldValue(f);
    IncludedStored(fs, src, None, [], 3, Str(f.fieldType.Id()));
    NullFieldValue(f);
    IncludedStored(fs, src, None, [], 4, Bool(f.nullable));
    ArrayFieldValue(f);
    IncludedStored(fs, src, None, [], 5, Bool(f.isArray));
  }
}
