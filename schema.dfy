/** The JSON Schema the loader checks every item against, and the
    subset of JSON Schema validation it needs: a "type" keyword and a
    "properties" keyword whose entries are again "type" keywords. */
module Schema {
  import opened Json

  datatype JsonType = TObject | TNumber | TString

  /** `{"type": typ, "properties": {key: {"type": t}, ...}}` */
  datatype Schema = Schema(typ: JsonType, properties: map<string, JsonType>)

  predicate HasType(j: Json, t: JsonType)
  {
    match t
    case TObject => j.Obj?
    case TNumber => j.Num?
    case TString => j.Str?
  }

  /** The instance has the schema's type and, when it is an object, every
      listed property that is present has its listed type. Absent
      properties and unlisted keys are not constrained. */
  predicate Conforms(j: Json, sc: Schema)
  {
    HasType(j, sc.typ) &&
    (j.Obj? ==> forall k :: k in sc.properties && k in j.fields ==> HasType(j.fields[k], sc.properties[k]))
  }

  /** The tool's schema for one good. */
  const GoodsSchema := Schema(TObject, map["price" := TNumber, "name" := TString, "shop" := TString])

  /** The schema read field by field: an object whose `price`, if present,
      is a number and whose `name` and `shop`, if present, are strings. */
  predicate IsGood(j: Json)
  {
    j.Obj? &&
    ("price" in j.fields ==> j.fields["price"].Num?) &&
    ("name" in j.fields ==> j.fields["name"].Str?) &&
    ("shop" in j.fields ==> j.fields["shop"].Str?)
  }

  /** Validation against the schema accepts exactly the goods. */
  lemma GoodsSchemaIsGood(j: Json)
    ensures Conforms(j, GoodsSchema) <==> IsGood(j)
  {
    var p := GoodsSchema.properties;
    assert "price" in p && "name" in p && "shop" in p;
    assert forall k :: k in p ==> k == "price" || k == "name" || k == "shop";
  }

  /** No key is required: the empty object validates. */
  lemma EmptyObjectIsGood()
    ensures Conforms(Obj(map[]), GoodsSchema)
  {
    GoodsSchemaIsGood(Obj(map[]));
  }

  /** Extra keys are allowed: adding or changing a key outside the three
      listed ones never changes the verdict. */
  lemma ExtraKeyIrrelevant(m: map<string, Json>, k: string, v: Json)
    requires k != "price" && k != "name" && k != "shop"
    ensures Conforms(Obj(m[k := v]), GoodsSchema) <==> Conforms(Obj(m), GoodsSchema)
  {
    GoodsSchemaIsGood(Obj(m[k := v]));
    GoodsSchemaIsGood(Obj(m));
  }

  /** Anything that is not an object fails validation. */
  lemma NonObjectRejected(j: Json)
    requires !j.Obj?
    ensures !Conforms(j, GoodsSchema)
  {
  }
}
