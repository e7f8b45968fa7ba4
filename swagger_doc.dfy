/** The operation builder of utils/generateSwaggerDoc.js: one route descriptor becomes
    a one-path, one-method fragment of an OpenAPI 3.0 Paths Object, with the request
    body and the 200 response schema rebuilt from the descriptor's schemas. */
module SwaggerDoc {
  import opened Text
  import opened Json
  import SchemaTranscoder

  /** The fields of a route descriptor that the builder reads. `httpMethod` is `None`
      when the call site had no property name; `parameters` and `requestBodySchema`
      are always objects where the generator builds them. */
  datatype Route = Route(
    path: string,
    httpMethod: Option<string>,
    summary: JsValue,
    description: JsValue,
    tags: JsValue,
    parameters: seq<Fields>,
    requestBodySchema: Fields,
    responseSchema: JsValue)

  /** The TypeError of a property read on `null` or `undefined`. */
  function ReadOfNullish(v: JsValue, property: string): JsError
    requires Nullish(v)
  {
    TypeError("Cannot read properties of " + (if v == Null then "null" else "undefined") + " (reading '" + property + "')")
  }

  predicate IsObjectLike(v: JsValue) {
    Truthy(v) && TypeOf(v) == "object"
  }

  // ---------------------------------------------------------------------------
  // buildSchema (utils/generateSwaggerDoc.js:12-52)

  /** `buildSchema(properties)`: a primitive (or null) becomes `{type: typeof, example}`;
      an object or array maps each entry through `BuildEntry`. */
  function BuildSchema(properties: JsValue): (r: Result<JsValue>)
    ensures !IsObjectLike(properties) ==>
              r == Ok(Obj([("type", Str(TypeOf(properties))), ("example", properties)]))
    decreases properties, 2, 0
  {
    if !IsObjectLike(properties) then Ok(Obj([("type", Str(TypeOf(properties))), ("example", properties)]))
    else
      var entries :- BuildEntries(properties, |Entries(properties)|);
      Ok(FromEntries(entries))
  }

  /** The first `n` entries of `properties`, built in order; the first failure wins. */
  function BuildEntries(properties: JsValue, n: nat): Result<Fields>
    requires n <= |Entries(properties)|
    decreases properties, 1, n
  {
    if n == 0 then Ok([])
    else
      var prev :- BuildEntries(properties, n - 1);
      EntrySmaller(properties, n - 1);
      var built :- BuildEntry(Entries(properties)[n - 1].1);
      Ok(prev + [(Entries(properties)[n - 1].0, built)])
  }

  /** One entry value: arrays and objects are rebuilt, anything else keeps its type
      and example. Reading `type` of a nullish value throws. The entry's type is
      always carried over. */
  function BuildEntry(value: JsValue): (r: Result<JsValue>)
    ensures Nullish(value) ==> r.Err?
    ensures r.Ok? ==> r.value.Obj? && Get(r.value, "type") == Get(value, "type")
    decreases value, 0, 0
  {
    if Nullish(value) then Err(ReadOfNullish(value, "type"))
    else if Get(value, "type") == Str("array") then
      var items := Get(value, "items");
      if !Truthy(items) then
        Ok(Obj([("type", Str("array")), ("items", Obj([("type", Str("string"))]))]))
      else if Get(items, "type") == Str("object") then
        GetSmaller(value, "items");
        GetSmaller(items, "properties");
        var nested := Get(items, "properties");
        // `buildSchema(nested || {})`, where `buildSchema({})` is `{}`
        var built :- if Truthy(nested) then BuildSchema(nested) else Ok(Obj([]));
        Ok(Obj([("type", Str("array")), ("items", Obj([("type", Str("object")), ("properties", built)]))]))
      else
        Ok(Obj([("type", Str("array")),
                ("items", Obj([("type", Or(Get(items, "type"), Str("string"))), ("example", Or(Get(items, "example"), Str("")))]))]))
    else if Get(value, "type") == Str("object") then
      GetSmaller(value, "properties");
      var nested := Get(value, "properties");
      var built :- if Truthy(nested) then BuildSchema(nested) else Ok(Obj([]));
      Ok(Obj([("type", Str("object")), ("properties", built)]))
    else
      Ok(Obj([("type", Get(value, "type")), ("example", Get(value, "example"))]))
  }

  /** Entry `i` of `properties` builds without an exception. */
  predicate EntryBuilds(properties: JsValue, i: nat)
    requires i < |Entries(properties)|
  {
    BuildEntry(Entries(properties)[i].1).Ok?
  }

  /** Entry `i` of `properties` as `buildSchema` emits it. */
  function BuiltEntry(properties: JsValue, i: nat): (string, JsValue)
    requires i < |Entries(properties)| && EntryBuilds(properties, i)
  {
    (Entries(properties)[i].0, BuildEntry(Entries(properties)[i].1).value)
  }

  lemma BuildEntriesStep(properties: JsValue, n: nat)
    requires 0 < n <= |Entries(properties)|
    ensures BuildEntries(properties, n).Ok? <==> BuildEntries(properties, n - 1).Ok? && EntryBuilds(properties, n - 1)
    ensures BuildEntries(properties, n).Ok? ==>
              BuildEntries(properties, n).value == BuildEntries(properties, n - 1).value + [BuiltEntry(properties, n - 1)]
  {
  }

  lemma BuildEntriesSpec(properties: JsValue, n: nat)
    requires n <= |Entries(properties)|
    ensures BuildEntries(properties, n).Ok? <==> forall i :: 0 <= i < n ==> EntryBuilds(properties, i)
    ensures BuildEntries(properties, n).Ok? ==>
              && |BuildEntries(properties, n).value| == n
              && forall i :: 0 <= i < n ==> BuildEntries(properties, n).value[i] == BuiltEntry(properties, i)
  {
    BuildEntriesOk(properties, n);
    if BuildEntries(properties, n).Ok? {
      BuildEntriesValues(properties, n);
    }
  }

  /** Building the first `n` entries succeeds exactly when each of them builds. */
  lemma BuildEntriesOk(properties: JsValue, n: nat)
    requires n <= |Entries(properties)|
    ensures BuildEntries(properties, n).Ok? <==> forall i :: 0 <= i < n ==> EntryBuilds(properties, i)
  {
    if BuildEntries(properties, n).Ok? {
      forall i | 0 <= i < n ensures EntryBuilds(properties, i) {
        BuildsBefore(properties, n, i);
      }
    } else {
      var i := FailingEntry(properties, n);
    }
  }

  /** When the first `n` entries build, entry `i < n` does. */
  lemma {:induction false} BuildsBefore(properties: JsValue, n: nat, i: nat)
    requires i < n <= |Entries(properties)| && BuildEntries(properties, n).Ok?
    ensures EntryBuilds(properties, i)
  {
    BuildEntriesStep(properties, n);
    if i < n - 1 {
      BuildsBefore(properties, n - 1, i);
    }
  }

  /** When the first `n` entries fail to build, some entry among them fails. */
  lemma {:induction false} FailingEntry(properties: JsValue, n: nat) returns (i: nat)
    requires n <= |Entries(properties)| && !BuildEntries(properties, n).Ok?
    ensures i < n && !EntryBuilds(properties, i)
  {
    BuildEntriesStep(properties, n);
    if BuildEntries(properties, n - 1).Ok? {
      i := n - 1;
    } else {
      i := FailingEntry(properties, n - 1);
    }
  }

  /** The built entries are the entries built one by one, in order. */
  lemma {:induction false} BuildEntriesValues(properties: JsValue, n: nat)
    requires n <= |Entries(properties)| && BuildEntries(properties, n).Ok?
    ensures |BuildEntries(properties, n).value| == n
    ensures forall i :: 0 <= i < n ==> EntryBuilds(properties, i) && BuildEntries(properties, n).value[i] == BuiltEntry(properties, i)
  {
    if n > 0 {
      BuildEntriesStep(properties, n);
      BuildEntriesOk(properties, n);
      BuildEntriesValues(properties, n - 1);
      var prev := BuildEntries(properties, n - 1).value;
      var cur := BuildEntries(properties, n).value;
      forall i | 0 <= i < n ensures cur[i] == BuiltEntry(properties, i) {
        if i < n - 1 { assert cur[i] == prev[i]; }
      }
    }
  }

  /** `buildSchema` keeps the key set and order of an object (or array) and the type
      of every entry; it fails exactly when building some entry fails, in particular
      when some entry value is `null` or `undefined`. */
  lemma BuildSchemaKeys(properties: JsValue)
    requires IsObjectLike(properties) && DistinctKeys(Entries(properties))
    ensures var r := BuildSchema(properties);
      && (r.Ok? <==> forall i :: 0 <= i < |Entries(properties)| ==> EntryBuilds(properties, i))
      && (r.Ok? ==>
            && r.value.Obj?
            && Keys(r.value.fields) == Keys(Entries(properties))
            && forall i :: 0 <= i < |Entries(properties)| ==>
                 Get(r.value.fields[i].1, "type") == Get(Entries(properties)[i].1, "type"))
  {
    var es := Entries(properties);
    BuildEntriesSpec(properties, |es|);
    var built := BuildEntries(properties, |es|);
    if built.Ok? {
      forall i | 0 <= i < |es|
        ensures built.value[i].0 == es[i].0 && Get(built.value[i].1, "type") == Get(es[i].1, "type")
      {
        assert built.value[i] == BuiltEntry(properties, i);
        var e := BuildEntry(es[i].1);
        assert EntryBuilds(properties, i) && e.Ok?;
      }
      assert DistinctKeys(built.value);
      FromEntriesDistinct(built.value);
    }
  }

  /** The defaults `buildSchema` fills in: an array entry without `items` gets string
      items; non-object items default their type to "string" and their example to "";
      an object entry without `properties` gets an empty property map. */
  lemma BuildEntryDefaults(value: JsValue)
    ensures Get(value, "type") == Str("array") && !Truthy(Get(value, "items")) ==>
      BuildEntry(value) == Ok(Obj([("type", Str("array")), ("items", Obj([("type", Str("string"))]))]))
    ensures var items := Get(value, "items");
      Get(value, "type") == Str("array") && Truthy(items) && Get(items, "type") != Str("object") ==>
        && Get(Get(BuildEntry(value).value, "items"), "type") == Or(Get(items, "type"), Str("string"))
        && Get(Get(BuildEntry(value).value, "items"), "example") == Or(Get(items, "example"), Str(""))
        && Truthy(Get(Get(BuildEntry(value).value, "items"), "type"))
    ensures Get(value, "type") == Str("object") && !Truthy(Get(value, "properties")) ==>
      BuildEntry(value) == Ok(Obj([("type", Str("object")), ("properties", Obj([]))]))
  {
    var items := Get(value, "items");
    if Get(value, "type") == Str("array") && Truthy(items) && Get(items, "type") != Str("object") {
      var built := BuildEntry(value).value;
      LookupAt(built.fields, 1, "items");
      LookupAt(Get(built, "items").fields, 1, "example");
    }
  }

  /** The branches of `buildSchema` that carry content: a scalar entry keeps exactly
      its type and example; an object entry with properties, and object-typed array
      items, hold the `buildSchema` of their nested property map (of `{}` when
      absent), and fail exactly when that does. */
  lemma BuildEntryContents(value: JsValue)
    ensures !Nullish(value) && Get(value, "type") != Str("array") && Get(value, "type") != Str("object") ==>
      BuildEntry(value) == Ok(Obj([("type", Get(value, "type")), ("example", Get(value, "example"))]))
    ensures var nested := Get(value, "properties");
      !Nullish(value) && Get(value, "type") == Str("object") && Truthy(nested) ==>
        && (BuildEntry(value).Ok? <==> BuildSchema(nested).Ok?)
        && (BuildEntry(value).Ok? ==>
              BuildEntry(value).value == Obj([("type", Str("object")), ("properties", BuildSchema(nested).value)]))
    ensures var items := Get(value, "items");
      var nested := Get(items, "properties");
      var built := if Truthy(nested) then BuildSchema(nested) else Ok(Obj([]));
      !Nullish(value) && Get(value, "type") == Str("array") && Truthy(items) && Get(items, "type") == Str("object") ==>
        && (BuildEntry(value).Ok? <==> built.Ok?)
        && (BuildEntry(value).Ok? ==>
              BuildEntry(value).value ==
                Obj([("type", Str("array")), ("items", Obj([("type", Str("object")), ("properties", built.value)]))]))
  {
  }

  // ---------------------------------------------------------------------------
  // buildResponseSchema (utils/generateSwaggerDoc.js:54-174)

  function Field(typeName: string, example: JsValue): JsValue {
    Obj([("type", Str(typeName)), ("example", example)])
  }

  /** The fixed `{success, message, code, data}` envelope around a data schema. */
  function Envelope(data: JsValue): JsValue {
    Obj([("type", Str("object")),
         ("properties", Obj([("success", Field("boolean", Bool(true))),
                             ("message", Field("string", Str("Operation successful"))),
                             ("code", Field("integer", Int(200))),
                             ("data", data)]))])
  }

  /** The data schema held by an envelope. */
  function EnvelopeData(v: JsValue): JsValue {
    Get(Get(v, "properties"), "data")
  }

  /** Item schema with defaults: type "string" and example "" when falsy. */
  function DefaultedItems(items: JsValue): JsValue {
    Obj([("type", Or(Get(items, "type"), Str("string"))), ("example", Or(Get(items, "example"), Str("")))])
  }

  function BuildResponseSchema(responseSchema: JsValue): Result<JsValue> {
    if !IsObjectLike(responseSchema) then Ok(Obj([]))
    else
      var data := Get(responseSchema, "data");
      if Truthy(data) && TypeOf(data) != "object" then
        Ok(Envelope(Field(TypeOf(data), data)))
      else if data == Null then
        Ok(Envelope(Obj([("type", Str("null"))])))
      else if Get(data, "items").Arr? then
        var first := At(Get(data, "items"), 0);
        Ok(Envelope(Obj([("type", Str("array")),
                         ("items", if Truthy(Get(first, "type"))
                                   then Obj([("type", Get(first, "type")), ("example", Get(first, "example"))])
                                   else Obj([("type", Str("string"))]))])))
      else if Truthy(Get(Get(data, "items"), "type")) then
        var items := Get(data, "items");
        if Get(items, "type") == Str("object") then
          var nested := Get(items, "properties");
          var built :- if Truthy(nested) then BuildSchema(nested) else Ok(Obj([]));
          Ok(Envelope(Obj([("type", Str("array")), ("items", Obj([("type", Str("object")), ("properties", built)]))])))
        else
          Ok(Envelope(Obj([("type", Str("array")), ("items", DefaultedItems(items))])))
      else if Truthy(Get(data, "properties")) then
        var built :- BuildSchema(Get(data, "properties"));
        Ok(Envelope(Obj([("type", Str("object")), ("properties", built)])))
      else if Get(data, "type") == Str("array") then
        Ok(Envelope(Obj([("type", Str("array")), ("items", DefaultedItems(Get(data, "items")))])))
      else
        var built :- BuildSchema(responseSchema);
        Ok(Obj([("type", Str("object")), ("properties", built)]))
  }

  /** The response shapes, in the order they are tried. */
  datatype ResponseShape =
    | NotAnObject | PrimitiveData | NullData | ItemList | TypedItems | DataProperties | DataArray | Unenveloped

  /** The test of each shape on its own, in precedence order. */
  function ShapeTests(responseSchema: JsValue): seq<bool> {
    var data := Get(responseSchema, "data");
    [!IsObjectLike(responseSchema),
     Truthy(data) && TypeOf(data) != "object",
     data == Null,
     Get(data, "items").Arr?,
     Truthy(Get(Get(data, "items"), "type")),
     Truthy(Get(data, "properties")),
     Get(data, "type") == Str("array")]
  }

  /** The position of the first test that holds, or the number of tests. */
  function FirstHolding(tests: seq<bool>): (i: nat)
    ensures i <= |tests|
    ensures forall j :: 0 <= j < i ==> !tests[j]
    ensures i < |tests| ==> tests[i]
  {
    if tests == [] then 0
    else if tests[0] then 0
    else 1 + FirstHolding(tests[1..])
  }

  /** The shapes in precedence order; the last one is taken when no test holds. */
  const Shapes: seq<ResponseShape> :=
    [NotAnObject, PrimitiveData, NullData, ItemList, TypedItems, DataProperties, DataArray, Unenveloped]

  /** First match wins: the shape whose test is the first to hold. */
  function Classify(responseSchema: JsValue): ResponseShape {
    Shapes[FirstHolding(ShapeTests(responseSchema))]
  }

  /** The type each enveloped shape gives its data schema. */
  function DataTypeOf(shape: ResponseShape, responseSchema: JsValue): JsValue {
    match shape
    case PrimitiveData => Str(TypeOf(Get(responseSchema, "data")))
    case NullData => Str("null")
    case DataProperties => Str("object")
    case _ => Str("array")
  }

  lemma EnvelopeDataOf(d: JsValue)
    ensures EnvelopeData(Envelope(d)) == d
  {
    var e := Envelope(d);
    LookupAt(e.fields, 1, "properties");
    LookupAt(Get(e, "properties").fields, 3, "data");
  }

  /** `r`, when it is a value, is exactly the fixed envelope around a data schema
      of type `dataType`. */
  predicate EnvelopedAs(r: Result<JsValue>, dataType: JsValue) {
    r.Ok? ==> r.value == Envelope(EnvelopeData(r.value)) && Get(EnvelopeData(r.value), "type") == dataType
  }

  /** The response schema agrees with the first-match classification: a non-object
      gives `{}`; the unenveloped fallback wraps `buildSchema` of the whole input; every
      other shape is exactly the fixed envelope around a data schema of the shape's
      type. Only the shapes that call `buildSchema` can fail. */
  lemma ResponseShapes(responseSchema: JsValue)
    ensures Classify(responseSchema) == NotAnObject ==> BuildResponseSchema(responseSchema) == Ok(Obj([]))
    ensures Classify(responseSchema) == Unenveloped ==>
      var r := BuildResponseSchema(responseSchema);
      && (r.Ok? <==> BuildSchema(responseSchema).Ok?)
      && (r.Ok? ==> r.value == Obj([("type", Str("object")), ("properties", BuildSchema(responseSchema).value)]))
    ensures Classify(responseSchema) != NotAnObject && Classify(responseSchema) != Unenveloped ==>
      var r := BuildResponseSchema(responseSchema);
      var shape := Classify(responseSchema);
      && (r.Err? ==> shape == TypedItems || shape == DataProperties)
      && EnvelopedAs(r, DataTypeOf(shape, responseSchema))
  {
    var i := FirstHolding(ShapeTests(responseSchema));
    assert Classify(responseSchema) == Shapes[i];
    if i == 0 {
      NotAnObjectShape(responseSchema);
    } else if i < 7 {
      ShapeTestsAre(responseSchema);
      EnvelopedShapes(responseSchema, i);
    } else {
      UnenvelopedShape(responseSchema);
    }
  }

  /** The data schema each enveloped shape builds, in terms of `data`:
      - primitive data: its `typeof` and the value itself as the example;
      - `null` data: exactly `{type: "null"}`;
      - a list of items: an array whose item schema is the first element's type and
        example when that type is truthy, else string;
      - typed items: object items hold the `buildSchema` of their properties (of `{}`
        when absent), any other items get their type and example defaulted;
      - data properties: the `buildSchema` of those properties;
      - array-typed data: its items' type and example, defaulted.
      The envelope around it is always the same. */
  lemma ResponseDataSchemas(responseSchema: JsValue)
    ensures var data := Get(responseSchema, "data");
      Classify(responseSchema) == PrimitiveData ==>
        BuildResponseSchema(responseSchema) == Ok(Envelope(Obj([("type", Str(TypeOf(data))), ("example", data)])))
    ensures Classify(responseSchema) == NullData ==>
      BuildResponseSchema(responseSchema) == Ok(Envelope(Obj([("type", Str("null"))])))
    ensures var first := At(Get(Get(responseSchema, "data"), "items"), 0);
      Classify(responseSchema) == ItemList ==>
        BuildResponseSchema(responseSchema) ==
          Ok(Envelope(Obj([("type", Str("array")),
                           ("items", if Truthy(Get(first, "type"))
                                     then Obj([("type", Get(first, "type")), ("example", Get(first, "example"))])
                                     else Obj([("type", Str("string"))]))])))
    ensures var items := Get(Get(responseSchema, "data"), "items");
      var nested := Get(items, "properties");
      var built := if Truthy(nested) then BuildSchema(nested) else Ok(Obj([]));
      Classify(responseSchema) == TypedItems && Get(items, "type") == Str("object") ==>
        && (BuildResponseSchema(responseSchema).Ok? <==> built.Ok?)
        && (built.Ok? ==>
              BuildResponseSchema(responseSchema).value ==
                Envelope(Obj([("type", Str("array")), ("items", Obj([("type", Str("object")), ("properties", built.value)]))])))
    ensures var items := Get(Get(responseSchema, "data"), "items");
      Classify(responseSchema) == TypedItems && Get(items, "type") != Str("object") ==>
        BuildResponseSchema(responseSchema) ==
          Ok(Envelope(Obj([("type", Str("array")), ("items", DefaultedItems(items))])))
    ensures var properties := Get(Get(responseSchema, "data"), "properties");
      Classify(responseSchema) == DataProperties ==>
        && (BuildResponseSchema(responseSchema).Ok? <==> BuildSchema(properties).Ok?)
        && (BuildSchema(properties).Ok? ==>
              BuildResponseSchema(responseSchema).value ==
                Envelope(Obj([("type", Str("object")), ("properties", BuildSchema(properties).value)])))
    ensures Classify(responseSchema) == DataArray ==>
      BuildResponseSchema(responseSchema) ==
        Ok(Envelope(Obj([("type", Str("array")), ("items", DefaultedItems(Get(Get(responseSchema, "data"), "items")))])))
  {
    LeafDataSchemas(responseSchema);
    NestedDataSchemas(responseSchema);
  }

  /** The primitive, `null` and item-list cases of `ResponseDataSchemas`. */
  lemma LeafDataSchemas(responseSchema: JsValue)
    ensures var data := Get(responseSchema, "data");
      Classify(responseSchema) == PrimitiveData ==>
        BuildResponseSchema(responseSchema) == Ok(Envelope(Obj([("type", Str(TypeOf(data))), ("example", data)])))
    ensures Classify(responseSchema) == NullData ==>
      BuildResponseSchema(responseSchema) == Ok(Envelope(Obj([("type", Str("null"))])))
    ensures var first := At(Get(Get(responseSchema, "data"), "items"), 0);
      Classify(responseSchema) == ItemList ==>
        BuildResponseSchema(responseSchema) ==
          Ok(Envelope(Obj([("type", Str("array")),
                           ("items", if Truthy(Get(first, "type"))
                                     then Obj([("type", Get(first, "type")), ("example", Get(first, "example"))])
                                     else Obj([("type", Str("string"))]))])))
  {
    ShapeTestsAre(responseSchema);
    var i := FirstHolding(ShapeTests(responseSchema));
    assert Classify(responseSchema) == Shapes[i];
  }

  /** The typed-items, data-properties and array-data cases of `ResponseDataSchemas`. */
  lemma NestedDataSchemas(responseSchema: JsValue)
    ensures var items := Get(Get(responseSchema, "data"), "items");
      var nested := Get(items, "properties");
      var built := if Truthy(nested) then BuildSchema(nested) else Ok(Obj([]));
      Classify(responseSchema) == TypedItems && Get(items, "type") == Str("object") ==>
        && (BuildResponseSchema(responseSchema).Ok? <==> built.Ok?)
        && (built.Ok? ==>
              BuildResponseSchema(responseSchema).value ==
                Envelope(Obj([("type", Str("array")), ("items", Obj([("type", Str("object")), ("properties", built.value)]))])))
    ensures var items := Get(Get(responseSchema, "data"), "items");
      Classify(responseSchema) == TypedItems && Get(items, "type") != Str("object") ==>
        BuildResponseSchema(responseSchema) ==
          Ok(Envelope(Obj([("type", Str("array")), ("items", DefaultedItems(items))])))
    ensures var properties := Get(Get(responseSchema, "data"), "properties");
      Classify(responseSchema) == DataProperties ==>
        && (BuildResponseSchema(responseSchema).Ok? <==> BuildSchema(properties).Ok?)
        && (BuildSchema(properties).Ok? ==>
              BuildResponseSchema(responseSchema).value ==
                Envelope(Obj([("type", Str("object")), ("properties", BuildSchema(properties).value)])))
    ensures Classify(responseSchema) == DataArray ==>
      BuildResponseSchema(responseSchema) ==
        Ok(Envelope(Obj([("type", Str("array")), ("items", DefaultedItems(Get(Get(responseSchema, "data"), "items")))])))
  {
    ShapeTestsAre(responseSchema);
    var i := FirstHolding(ShapeTests(responseSchema));
    assert Classify(responseSchema) == Shapes[i];
  }

  /** Each entry of `ShapeTests`, spelt out. */
  lemma ShapeTestsAre(responseSchema: JsValue)
    ensures var data := Get(responseSchema, "data");
      var tests := ShapeTests(responseSchema);
      && |tests| == 7
      && tests[0] == !IsObjectLike(responseSchema)
      && tests[1] == (Truthy(data) && TypeOf(data) != "object")
      && tests[2] == (data == Null)
      && tests[3] == Get(data, "items").Arr?
      && tests[4] == Truthy(Get(Get(data, "items"), "type"))
      && tests[5] == Truthy(Get(data, "properties"))
      && tests[6] == (Get(data, "type") == Str("array"))
  {
  }

  lemma NotAnObjectShape(responseSchema: JsValue)
    requires ShapeTests(responseSchema)[0]
    ensures BuildResponseSchema(responseSchema) == Ok(Obj([]))
  {
    ShapeTestsAre(responseSchema);
  }

  lemma UnenvelopedShape(responseSchema: JsValue)
    requires forall j :: 0 <= j < 7 ==> !ShapeTests(responseSchema)[j]
    ensures var r := BuildResponseSchema(responseSchema);
      && (r.Ok? <==> BuildSchema(responseSchema).Ok?)
      && (r.Ok? ==> r.value == Obj([("type", Str("object")), ("properties", BuildSchema(responseSchema).value)]))
  {
    ShapeTestsAre(responseSchema);
    var tests := ShapeTests(responseSchema);
    assert !tests[0] && !tests[1] && !tests[2] && !tests[3] && !tests[4] && !tests[5] && !tests[6];
  }

  lemma EnvelopedShapes(responseSchema: JsValue, i: nat)
    requires IsObjectLike(responseSchema)
    requires 0 < i < 7
    requires forall j :: 0 <= j < i ==> !ShapeTests(responseSchema)[j]
    requires ShapeTests(responseSchema)[i]
    ensures var r := BuildResponseSchema(responseSchema);
      && Shapes[i] != NotAnObject && Shapes[i] != Unenveloped
      && (r.Err? ==> Shapes[i] == TypedItems || Shapes[i] == DataProperties)
      && EnvelopedAs(r, DataTypeOf(Shapes[i], responseSchema))
  {
    ShapeTestsAre(responseSchema);
    if i < 4 {
      LeafShapes(responseSchema, i);
    } else {
      NestedShapes(responseSchema, i);
    }
  }

  /** Wrapping a data schema in the envelope gives an enveloped response of that
      schema's type. */
  lemma EnvelopedWith(d: JsValue, dataType: JsValue)
    requires Get(d, "type") == dataType
    ensures EnvelopedAs(Ok(Envelope(d)), dataType)
  {
    EnvelopeDataOf(d);
  }

  /** Primitive data, `null` data and a list of items: never an error. */
  lemma LeafShapes(responseSchema: JsValue, i: nat)
    requires IsObjectLike(responseSchema)
    requires 0 < i < 4
    requires forall j :: 0 <= j < i ==> !ShapeTests(responseSchema)[j]
    requires ShapeTests(responseSchema)[i]
    ensures BuildResponseSchema(responseSchema).Ok?
    ensures EnvelopedAs(BuildResponseSchema(responseSchema), DataTypeOf(Shapes[i], responseSchema))
  {
    var data := Get(responseSchema, "data");
    var items := Get(data, "items");
    ShapeTestsAre(responseSchema);
    if i == 1 {
      EnvelopedWith(Field(TypeOf(data), data), Str(TypeOf(data)));
    } else if i == 2 {
      EnvelopedWith(Obj([("type", Str("null"))]), Str("null"));
    } else {
      var first := At(items, 0);
      EnvelopedWith(Obj([("type", Str("array")),
                         ("items", if Truthy(Get(first, "type"))
                                   then Obj([("type", Get(first, "type")), ("example", Get(first, "example"))])
                                   else Obj([("type", Str("string"))]))]), Str("array"));
    }
  }

  /** Typed items, data properties and an array-typed data: only the first two
      call `buildSchema`, and so only they can fail. */
  lemma NestedShapes(responseSchema: JsValue, i: nat)
    requires IsObjectLike(responseSchema)
    requires 4 <= i < 7
    requires forall j :: 0 <= j < i ==> !ShapeTests(responseSchema)[j]
    requires ShapeTests(responseSchema)[i]
    ensures BuildResponseSchema(responseSchema).Err? ==> i == 4 || i == 5
    ensures EnvelopedAs(BuildResponseSchema(responseSchema), DataTypeOf(Shapes[i], responseSchema))
  {
    var data := Get(responseSchema, "data");
    var items := Get(data, "items");
    ShapeTestsAre(responseSchema);
    if i == 4 {
      if Get(items, "type") == Str("object") {
        var nested := Get(items, "properties");
        var built := if Truthy(nested) then BuildSchema(nested) else Ok(Obj([]));
        if built.Ok? {
          EnvelopedWith(Obj([("type", Str("array")), ("items", Obj([("type", Str("object")), ("properties", built.value)]))]), Str("array"));
        }
      } else {
        EnvelopedWith(Obj([("type", Str("array")), ("items", DefaultedItems(items))]), Str("array"));
      }
    } else if i == 5 {
      var built := BuildSchema(Get(data, "properties"));
      if built.Ok? {
        EnvelopedWith(Obj([("type", Str("object")), ("properties", built.value)]), Str("object"));
      }
    } else {
      EnvelopedWith(Obj([("type", Str("array")), ("items", DefaultedItems(items))]), Str("array"));
    }
  }

  /** Falsy primitive data (`0`, `""` or `false`) takes none of the enveloped shapes:
      the whole response schema goes through the unenveloped fallback. */
  lemma FalsyPrimitiveUnenveloped(responseSchema: JsValue)
    requires IsObjectLike(responseSchema)
    requires Get(responseSchema, "data") in {Int(0), Str(""), Bool(false)}
    ensures Classify(responseSchema) == Unenveloped
  {
    assert ShapeTests(responseSchema) == [false, false, false, false, false, false, false];
  }

  // ---------------------------------------------------------------------------
  // The operation object (utils/generateSwaggerDoc.js:176-227)

  /** A listed parameter: name, location and requiredness copied, the description
      defaulting to "", the given schema, and `allowEmptyValue` set to the negated
      requiredness for query parameters only. */
  function ParameterWithSchema(param: Fields, schema: JsValue): Fields {
    [("name", Lookup(param, "name")),
     ("in", Lookup(param, "in")),
     ("required", Lookup(param, "required")),
     ("description", Or(Lookup(param, "description"), Str(""))),
     ("schema", schema),
     ("allowEmptyValue", if Lookup(param, "in") == Str("query") then Bool(!Truthy(Lookup(param, "required"))) else Undefined)]
  }

  /** As written: the schema is read from the parameter's `schema` property. */
  function OperationParameter(param: Fields): Fields {
    ParameterWithSchema(param, Lookup(param, "schema"))
  }

  /** Corrected: the schema is read from `type`, where schema extraction stores it. */
  function OperationParameterFixed(param: Fields): Fields {
    ParameterWithSchema(param, Lookup(param, "type"))
  }

  /** `tags` kept when it is an array, otherwise wrapped in a one-element array. */
  function TagList(tags: JsValue): JsValue {
    if tags.Arr? then tags else Arr([tags])
  }

  /** The request body: present only for a non-GET method with a non-empty body schema. */
  function RequestBody(httpMethod: string, requestBodySchema: Fields): Result<JsValue> {
    if ToUpper(httpMethod) != "GET" && |requestBodySchema| > 0 then
      var built :- BuildSchema(Obj(requestBodySchema));
      Ok(Obj([("required", Bool(true)),
              ("content", Obj([("application/json", Obj([("schema", Obj([("type", Str("object")), ("properties", built)]))]))]))]))
    else Ok(Undefined)
  }

  function Responses(schema: JsValue): JsValue {
    Obj([("200", Obj([("description", Str("Successful response")),
                      ("content", Obj([("application/json", Obj([("schema", schema)]))]))])),
         ("400", Obj([("description", Str("Bad request, invalid parameters"))])),
         ("500", Obj([("description", Str("Internal server error"))]))])
  }

  /** The operation object: the fixed bearer-auth security requirement beside the
      given fields, in the generator's key order. */
  function OperationObject(summary: JsValue, description: JsValue, tags: JsValue, parameters: JsValue,
                           requestBody: JsValue, responses: JsValue): (r: JsValue)
    ensures r.Obj? && Keys(r.fields) ==
      ["summary", "description", "tags", "security", "parameters", "requestBody", "responses"]
    ensures Get(r, "summary") == summary && Get(r, "description") == description && Get(r, "tags") == tags
    ensures Get(r, "security") == Arr([Obj([("BearerAuth", Arr([]))])])
    ensures Get(r, "parameters") == parameters && Get(r, "requestBody") == requestBody
    ensures Get(r, "responses") == responses
  {
    var fs := [("summary", summary),
               ("description", description),
               ("tags", tags),
               ("security", Arr([Obj([("BearerAuth", Arr([]))])])),
               ("parameters", parameters),
               ("requestBody", requestBody),
               ("responses", responses)];
    LookupFirstThree(fs);
    LookupLastThree(fs);
    Obj(fs)
  }

  lemma LookupFirstThree(fs: Fields)
    requires |fs| == 7
    requires fs[0].0 == "summary" && fs[1].0 == "description" && fs[2].0 == "tags" && fs[3].0 == "security"
    ensures Lookup(fs, "description") == fs[1].1 && Lookup(fs, "tags") == fs[2].1 && Lookup(fs, "security") == fs[3].1
  {
    LookupAt(fs, 1, "description");
    LookupAt(fs, 2, "tags");
    LookupAt(fs, 3, "security");
  }

  lemma LookupLastThree(fs: Fields)
    requires |fs| == 7
    requires fs[0].0 == "summary" && fs[1].0 == "description" && fs[2].0 == "tags" && fs[3].0 == "security"
    requires fs[4].0 == "parameters" && fs[5].0 == "requestBody" && fs[6].0 == "responses"
    ensures Lookup(fs, "parameters") == fs[4].1 && Lookup(fs, "requestBody") == fs[5].1 && Lookup(fs, "responses") == fs[6].1
  {
    LookupAt(fs, 4, "parameters");
    LookupAt(fs, 5, "requestBody");
    LookupAt(fs, 6, "responses");
  }

  /** The listed parameters through `parameter`, or `undefined` when there are none. */
  function ParameterList(ps: seq<Fields>, parameter: Fields -> Fields): (r: JsValue)
    ensures |ps| == 0 ==> r == Undefined
    ensures |ps| > 0 ==> r.Arr? && |r.items| == |ps| && forall i :: 0 <= i < |ps| ==> r.items[i] == Obj(parameter(ps[i]))
  {
    if |ps| > 0 then Arr(seq(|ps|, i requires 0 <= i < |ps| => Obj(parameter(ps[i])))) else Undefined
  }

  function Operation(route: Route, parameter: Fields -> Fields, requestBody: JsValue, responseSchema: JsValue): JsValue {
    OperationObject(route.summary, route.description, TagList(route.tags), ParameterList(route.parameters, parameter),
                    requestBody, Responses(responseSchema))
  }

  /** The document fragment for one route, listing parameters through `parameter`.
      The method's `toLowerCase` on a missing method throws first, then building the
      request body, then building the response schema. */
  function SwaggerDocWith(route: Route, parameter: Fields -> Fields): Result<JsValue> {
    if route.httpMethod.None? then Err(ReadOfNullish(Undefined, "toLowerCase"))
    else
      var httpMethod := route.httpMethod.value;
      var requestBody :- RequestBody(httpMethod, route.requestBodySchema);
      var responseSchema :- BuildResponseSchema(route.responseSchema);
      Ok(Obj([(route.path, Obj([(ToLower(httpMethod), Operation(route, parameter, requestBody, responseSchema))]))]))
  }

  /** `generateSwaggerDoc(route)` as written. */
  function GenerateSwaggerDoc(route: Route): Result<JsValue> {
    SwaggerDocWith(route, OperationParameter)
  }

  /** `generateSwaggerDoc(route)` with parameter schemas read from where they are stored. */
  function GenerateSwaggerDocFixed(route: Route): Result<JsValue> {
    SwaggerDocWith(route, OperationParameterFixed)
  }

  /** The operation object of a document fragment. */
  function OperationIn(doc: JsValue, route: Route): JsValue
    requires route.httpMethod.Some?
  {
    Get(Get(doc, route.path), ToLower(route.httpMethod.value))
  }

  /** The fragment has exactly one key, the path, and under it exactly one key, the
      lower-cased method; it fails exactly when the method is missing or building the
      request body or the response schema throws. */
  lemma DocShape(route: Route, parameter: Fields -> Fields)
    ensures var r := SwaggerDocWith(route, parameter);
      && (r.Ok? <==> route.httpMethod.Some?
                     && RequestBody(route.httpMethod.value, route.requestBodySchema).Ok?
                     && BuildResponseSchema(route.responseSchema).Ok?)
      && (r.Ok? ==>
            && r.value.Obj? && Keys(r.value.fields) == [route.path]
            && Get(r.value, route.path).Obj?
            && Keys(Get(r.value, route.path).fields) == [ToLower(route.httpMethod.value)]
            && OperationIn(r.value, route).Obj?
            && Keys(OperationIn(r.value, route).fields) ==
                 ["summary", "description", "tags", "security", "parameters", "requestBody", "responses"])
  {
  }

  /** What the operation object holds: tags always as an array; the parameters as
      listed, in order, or `undefined` when there are none; a request body exactly
      for a non-GET method with a non-empty body schema; and the three fixed
      responses, the 200 one carrying the built response schema. */
  lemma OperationContents(route: Route, parameter: Fields -> Fields)
    requires SwaggerDocWith(route, parameter).Ok?
    ensures var op := OperationIn(SwaggerDocWith(route, parameter).value, route);
      var ps := route.parameters;
      && Get(op, "tags").Arr?
      && (route.tags.Arr? ==> Get(op, "tags") == route.tags)
      && (!route.tags.Arr? ==> Get(op, "tags") == Arr([route.tags]))
      && (|ps| == 0 ==> Get(op, "parameters") == Undefined)
      && (|ps| > 0 ==> Get(op, "parameters").Arr? && |Get(op, "parameters").items| == |ps|
                       && forall i :: 0 <= i < |ps| ==> Get(op, "parameters").items[i] == Obj(parameter(ps[i])))
      && (Get(op, "requestBody") != Undefined <==>
            ToUpper(route.httpMethod.value) != "GET" && |route.requestBodySchema| > 0)
      && Get(op, "responses").Obj?
      && Keys(Get(op, "responses").fields) == ["200", "400", "500"]
      && Get(Get(op, "responses"), "400") == Obj([("description", Str("Bad request, invalid parameters"))])
      && Get(Get(op, "responses"), "500") == Obj([("description", Str("Internal server error"))])
      && Get(Get(Get(Get(Get(op, "responses"), "200"), "content"), "application/json"), "schema")
           == BuildResponseSchema(route.responseSchema).value
  {
    var doc := SwaggerDocWith(route, parameter).value;
    var httpMethod := route.httpMethod.value;
    var requestBody := RequestBody(httpMethod, route.requestBodySchema).value;
    var responseSchema := BuildResponseSchema(route.responseSchema).value;
    var op := Operation(route, parameter, requestBody, responseSchema);
    assert OperationIn(doc, route) == op;
    ResponsesFields(responseSchema);
  }

  lemma ResponsesFields(schema: JsValue)
    ensures Responses(schema).Obj? && Keys(Responses(schema).fields) == ["200", "400", "500"]
    ensures Get(Responses(schema), "400") == Obj([("description", Str("Bad request, invalid parameters"))])
    ensures Get(Responses(schema), "500") == Obj([("description", Str("Internal server error"))])
    ensures Get(Get(Get(Get(Responses(schema), "200"), "content"), "application/json"), "schema") == schema
  {
    var responses := Responses(schema);
    LookupAt(responses.fields, 1, "400");
    LookupAt(responses.fields, 2, "500");
    LookupAt(Get(responses, "200").fields, 1, "content");
  }

  /** The per-parameter rules: the description defaults to "", and `allowEmptyValue`
      is the negated requiredness for a query parameter and `undefined` otherwise. */
  lemma ParameterRules(param: Fields, schema: JsValue)
    ensures var out := ParameterWithSchema(param, schema);
      && Lookup(out, "name") == Lookup(param, "name")
      && Lookup(out, "in") == Lookup(param, "in")
      && (Truthy(Lookup(param, "description")) ==> Lookup(out, "description") == Lookup(param, "description"))
      && (!Truthy(Lookup(param, "description")) ==> Lookup(out, "description") == Str(""))
      && Lookup(out, "schema") == schema
      && (Lookup(param, "in") == Str("query") ==> Lookup(out, "allowEmptyValue") == Bool(!Truthy(Lookup(param, "required"))))
      && (Lookup(param, "in") != Str("query") ==> Lookup(out, "allowEmptyValue") == Undefined)
  {
    var out := ParameterWithSchema(param, schema);
    LookupAt(out, 3, "description");
    LookupAt(out, 4, "schema");
    LookupAt(out, 5, "allowEmptyValue");
  }

  /** As written, no parameter produced by schema extraction keeps its schema: the
      extracted object stores it under `type` and has no `schema` property. */
  lemma ParameterSchemaLost(name: string, location: string, required: bool, fieldSchema: JsValue)
    ensures Lookup(OperationParameter(SchemaTranscoder.ParameterObject(name, location, required, fieldSchema)), "schema")
         == Undefined
  {
    var param := SchemaTranscoder.ParameterObject(name, location, required, fieldSchema);
    assert !HasKey(param, "schema");
    LookupMissing(param, "schema");
    ParameterRules(param, Undefined);
  }

  /** Corrected, every extracted parameter is listed with its transcoded schema. */
  lemma ParameterSchemaKept(name: string, location: string, required: bool, fieldSchema: JsValue)
    ensures Lookup(OperationParameterFixed(SchemaTranscoder.ParameterObject(name, location, required, fieldSchema)), "schema")
         == fieldSchema
  {
    var param := SchemaTranscoder.ParameterObject(name, location, required, fieldSchema);
    LookupAt(param, 4, "type");
    ParameterRules(param, fieldSchema);
  }
}
