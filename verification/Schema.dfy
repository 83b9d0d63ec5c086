/** The part of JSON Schema that capabilities are written in. */
module Schema {
  import opened Values

  /** A boolean schema, or one with these keywords; an absent keyword is None. */
  datatype Schema =
    | Boolean(accepts: bool)
    | Keywords(
        types: Option<string>,
        const_: Option<Json>,
        enumeration: Option<seq<Json>>,
        required: seq<string>,
        properties: seq<Property>,
        additional: Option<Schema>)

  datatype Property = Property(name: string, schema: Schema)

  predicate HasType(value: Json, name: string) {
    match value
    case Null => name == "null"
    case Bool(_) => name == "boolean"
    case Num(n) => name == "number" || (name == "integer" && n == n.Floor as real)
    case Str(_) => name == "string"
    case Arr(_) => name == "array"
    case Obj(_) => name == "object"
  }

  /** Acceptance by recursion: `required`, `properties` and `additionalProperties` only concern objects. */
  predicate Accepts(schema: Schema, value: Json)
    decreases schema, 1
  {
    match schema
    case Boolean(b) => b
    case Keywords(types, const_, enumeration, _, _, _) =>
      && (types.Some? ==> HasType(value, types.value))
      && (const_.Some? ==> Same(const_.value, value))
      && (enumeration.Some? ==> exists v <- enumeration.value :: Same(v, value))
      && (value.Obj? ==> AcceptsFields(schema, Fields(value.entries)))
  }

  predicate AcceptsFields(schema: Schema, fields: Params)
    requires schema.Keywords?
    decreases schema, 0
  {
    && (forall name <- schema.required :: name in fields)
    && (forall p <- schema.properties :: p.name in fields ==> Accepts(p.schema, fields[p.name]))
    && (schema.additional.Some? ==>
          forall name <- fields :: (forall p <- schema.properties :: p.name != name) ==>
            Accepts(schema.additional.value, fields[name]))
  }

  /** Parameters are validated as an object, whatever the order of its entries. */
  predicate AcceptsParams(schema: Schema, params: Params) {
    match schema
    case Boolean(b) => b
    case Keywords(types, const_, enumeration, _, _, _) =>
      && (types.Some? ==> types.value == "object")
      && (const_.Some? ==> SameParams(const_.value, params))
      && (enumeration.Some? ==> exists v <- enumeration.value :: SameParams(v, params))
      && AcceptsFields(schema, params)
  }

  predicate SameParams(value: Json, params: Params) { value.Obj? && SameFields(value.entries, params) }

  /** That is, as any object with these fields. */
  lemma ParamsAreAnObject(schema: Schema, entries: seq<Entry>)
    ensures AcceptsParams(schema, Fields(entries)) <==> Accepts(schema, Obj(entries))
  {}

  function Typed(name: string): Schema { Keywords(Some(name), None, None, [], [], None) }

  /** Each `type` accepts the values of that type of JSON, and `integer` the whole numbers. */
  lemma TypeAccepts(v: Json)
    ensures Accepts(Typed("null"), v) <==> v.Null?
    ensures Accepts(Typed("boolean"), v) <==> v.Bool?
    ensures Accepts(Typed("number"), v) <==> v.Num?
    ensures Accepts(Typed("integer"), v) <==> v.Num? && v.n.Floor as real == v.n
    ensures Accepts(Typed("string"), v) <==> v.Str?
    ensures Accepts(Typed("array"), v) <==> v.Arr?
    ensures Accepts(Typed("object"), v) <==> v.Obj?
  {}

  lemma {:induction false} SameItself(a: Json)
    ensures Same(a, a)
    decreases Size(a)
  {
    match a
    case Arr(items) =>
      forall i | 0 <= i < |items| ensures Same(items[i], items[i]) {
        SizeOfItem(items, i);
        SameItself(items[i]);
      }
    case Obj(entries) =>
      forall key <- Fields(entries) ensures Same(Fields(entries)[key], Fields(entries)[key]) {
        FieldIsSmall(entries, key);
        SameItself(Fields(entries)[key]);
      }
    case _ =>
  }

  lemma {:induction false} SameBothWays(a: Json, b: Json)
    requires Same(a, b)
    ensures Same(b, a)
    decreases Size(a)
  {
    match a
    case Arr(items) =>
      forall i | 0 <= i < |items| ensures Same(b.items[i], items[i]) {
        SizeOfItem(items, i);
        SameBothWays(items[i], b.items[i]);
      }
    case Obj(entries) =>
      forall key <- Fields(entries) ensures key in Fields(b.entries) && Same(Fields(b.entries)[key], Fields(entries)[key]) {
        FieldIsSmall(entries, key);
        SameBothWays(Fields(entries)[key], Fields(b.entries)[key]);
      }
    case _ =>
  }

  /** Objects with the same fields are the same, however their entries are ordered. */
  lemma SameInAnyOrder(es: seq<Entry>, fs: seq<Entry>)
    requires Fields(es) == Fields(fs)
    ensures Same(Obj(es), Obj(fs))
  {
    SameItself(Obj(es));
  }

  predicate ObjectFree(a: Json) { !a.Obj? && (a.Arr? ==> forall item <- a.items :: ObjectFree(item)) }

  /** Nothing else is disregarded: without objects, being the same is being equal. */
  lemma {:induction false} SameIsEqual(a: Json, b: Json)
    requires ObjectFree(a)
    ensures Same(a, b) <==> a == b
    decreases Size(a)
  {
    if a == b {
      SameItself(a);
    } else if a.Arr? && Same(a, b) {
      forall i | 0 <= i < |a.items| ensures a.items[i] == b.items[i] {
        SizeOfItem(a.items, i);
        SameIsEqual(a.items[i], b.items[i]);
      }
    }
  }
}
