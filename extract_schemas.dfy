/** The schema transcoder of extractSchemas.js: a validation-schema tree becomes an
    OpenAPI schema with a synthesized example on every node, and a named schema's
    `body` / `params` / `query` sections become a request-body property map and an
    ordered parameter list. */
module SchemaTranscoder {
  import opened Text
  import opened Json

  /** The type tag of a scalar schema node: any tag but the two structured ones. */
  type ScalarType = t: string | t != "array" && t != "object" witness "string"

  /** The `_flags` a schema node may carry; `Undefined` marks an unset flag. */
  datatype Flags = Flags(defaultValue: JsValue, description: JsValue, presence: JsValue)

  /** A validation-schema node, in place of a Joi schema object. */
  datatype SchemaNode =
      /** `undefined` or `null` where a schema object was expected */
    | NoSchema
      /** `type: 'array'`; `items[i]` is the schema of the i-th item term */
    | ArrayNode(items: seq<SchemaNode>, flags: Flags)
      /** `type: 'object'`; `keys` is the ordered key map `_ids._byKey` */
    | ObjectNode(keys: seq<(string, SchemaNode)>, flags: Flags)
      /** any other type; `valids` is the set of allowed values `_valids.values`, if any */
    | ScalarNode(kind: ScalarType, valids: Option<seq<JsValue>>, flags: Flags)

  /** The named keys of a node: those of an object node, none for any other. */
  function KeysOf(node: SchemaNode): seq<(string, SchemaNode)> {
    if node.ObjectNode? then node.keys else []
  }

  // ---------------------------------------------------------------------------
  // Key-driven synthesis (extractSchemas.js:4-23)

  /** The example suggested by a field name. Patterns are tried in a fixed order on
      the lower-cased name, so a name containing "id" always gives the numeric id.
      The only falsy suggestion is the `0` for "start". */
  function ExampleFromKey(key: string): (r: JsValue)
    ensures Contains(ToLower(key), "id") ==> r == Int(125069)
    ensures !Truthy(r) <==> ToLower(key) == "start"
    ensures r == Str("example") <==>
      !Contains(ToLower(key), "id") && ToLower(key) != "limit" && ToLower(key) != "start" &&
      ToLower(key) != "email" && !Contains(ToLower(key), "date") &&
      !Contains(ToLower(key), "status") && !Contains(ToLower(key), "name")
  {
    var lowerKey := ToLower(key);
    assert !Contains("start", "id") by { NotContainsStart(); }
    if Contains(lowerKey, "id") then Int(125069)
    else if lowerKey == "limit" then Int(10)
    else if lowerKey == "start" then Int(0)
    else if lowerKey == "email" then Str("user@example.com")
    else if Contains(lowerKey, "date") then Str("2024-01-01")
    else if Contains(lowerKey, "status") then Str("active")
    else if Contains(lowerKey, "name") then Str("John Doe")
    else Str("example")
  }

  lemma NotContainsStart()
    ensures !Contains("start", "id")
  {
    assert !Contains("", "id");
    assert !Contains("t", "id");
    assert "rt"[..2][0] == 'r';
    assert !Contains("rt", "id");
    assert "art"[..2][0] == 'a';
    assert !Contains("art", "id");
    assert "tart"[..2][0] == 't';
    assert !Contains("tart", "id");
    assert "start"[..2][0] == 's';
  }

  /** `key` with its first character upper-cased. */
  function Capitalized(key: string): string {
    if key == "" then "" else [UpperChar(key[0])] + key[1..]
  }

  /** The description suggested by a field name for a route tag. Every suggestion
      names the tag and none is empty. */
  function DescriptionFromKey(key: string, routeTag: string): (r: string)
    ensures r != ""
    ensures Contains(r, routeTag)
  {
    var lowerKey := ToLower(key);
    if lowerKey == "custid" then
      ContainsMiddle("Enter customer ID to fetch ", routeTag, "-related records.");
      "Enter customer ID to fetch " + routeTag + "-related records."
    else if lowerKey == "limit" then
      ContainsMiddle("Number of ", routeTag, " records to fetch.");
      "Number of " + routeTag + " records to fetch."
    else if lowerKey == "start" then
      ContainsMiddle("Starting index for ", routeTag, " pagination.");
      "Starting index for " + routeTag + " pagination."
    else if Contains(lowerKey, "status") then
      ContainsMiddle("Status of the ", routeTag, " (e.g., active, inactive).");
      "Status of the " + routeTag + " (e.g., active, inactive)."
    else
      ContainsMiddle(Capitalized(key) + " related to ", routeTag, ".");
      Capitalized(key) + " related to " + routeTag + "."
  }

  // ---------------------------------------------------------------------------
  // Transcoding (extractSchemas.js:25-81), as a specification

  /** What `joiToSwagger` returns for a missing schema. */
  function GenericSchema(): JsValue {
    Obj([("type", Str("string")), ("example", Str("string")), ("description", Str("Generic string field"))])
  }

  /** The example a scalar falls back to by its type tag; `now` is the current time
      as an ISO string. */
  function TypeExample(typeName: string, now: string): JsValue {
    if typeName == "string" then Str("example string")
    else if typeName == "number" || typeName == "integer" then Int(123)
    else if typeName == "boolean" then Bool(true)
    else if typeName == "date" then Str(now)
    else Str("sample " + typeName)
  }

  /** The allowed-value set is used as an enum only when non-empty and free of `undefined`. */
  predicate EnumApplies(valids: Option<seq<JsValue>>) {
    valids.Some? && |valids.value| > 0 && Undefined !in valids.value
  }

  function TypeName(kind: ScalarType): string {
    if kind == "" then "string" else kind
  }

  /** A scalar whose allowed values apply as an enum lists them and takes the first
      as its example. */
  function WithEnum(s: Fields, valids: Option<seq<JsValue>>): Fields {
    if EnumApplies(valids) then Assign(Assign(s, "enum", Arr(valids.value)), "example", valids.value[0]) else s
  }

  /** A declared default is copied, and also becomes the example if the example so
      far is falsy. */
  function WithDefault(s: Fields, defaultValue: JsValue): Fields {
    if defaultValue != Undefined then
      var d := Assign(s, "default", defaultValue);
      if !Truthy(Lookup(d, "example")) then Assign(d, "example", defaultValue) else d
    else s
  }

  /** The declared description when truthy, else one derived from a non-empty key. */
  function WithDescription(s: Fields, description: JsValue, key: string, routeTag: string): Fields {
    if Truthy(description) then Assign(s, "description", description)
    else if key != "" then Assign(s, "description", Str(DescriptionFromKey(key, routeTag)))
    else s
  }

  /** A falsy example is replaced by the one a non-empty key suggests. */
  function WithKeyExample(s: Fields, key: string): Fields {
    if !Truthy(Lookup(s, "example")) && key != "" then Assign(s, "example", ExampleFromKey(key)) else s
  }

  /** A still-falsy example is replaced by the type-based fallback. */
  function WithTypeExample(s: Fields, typeName: string, now: string): Fields {
    if !Truthy(Lookup(s, "example")) then Assign(s, "example", TypeExample(typeName, now)) else s
  }

  /** The properties of a transcoded scalar, assigned in the order the source assigns them. */
  function ScalarSchema(kind: ScalarType, valids: Option<seq<JsValue>>, flags: Flags,
                        key: string, routeTag: string, now: string): Fields
  {
    var typed := [("type", Str(TypeName(kind)))];
    var described := WithDescription(WithDefault(WithEnum(typed, valids), flags.defaultValue), flags.description, key, routeTag);
    WithTypeExample(WithKeyExample(described, key), TypeName(kind), now)
  }

  /** The transcoding of a schema node found under `key`, for a route tag. */
  function Transcode(node: SchemaNode, key: string, routeTag: string, now: string): JsValue
    decreases node, 1, 0
  {
    match node
    case NoSchema => GenericSchema()
    case ArrayNode(items, _) =>
      var item := if |items| > 0 then Transcode(items[0], "", routeTag, now) else GenericSchema();
      Obj([("type", Str("array")), ("items", item), ("example", Arr([Get(item, "example")])),
           ("description", Str("List of " + key + "s"))])
    case ObjectNode(keys, _) =>
      var (properties, example) := TranscodeKeys(node, |keys|, routeTag, now);
      Obj([("type", Str("object")), ("properties", Obj(properties)), ("example", Obj(example))])
    case ScalarNode(kind, valids, flags) =>
      Obj(ScalarSchema(kind, valids, flags, key, routeTag, now))
  }

  /** The `properties` and `example` objects after the first `n` keys of an object node. */
  function TranscodeKeys(parent: SchemaNode, n: nat, routeTag: string, now: string): (Fields, Fields)
    requires parent.ObjectNode? && n <= |parent.keys|
    decreases parent, 0, n
  {
    if n == 0 then ([], [])
    else
      var (properties, example) := TranscodeKeys(parent, n - 1, routeTag, now);
      var subKey := parent.keys[n - 1].0;
      var field := Transcode(parent.keys[n - 1].1, subKey, routeTag, now);
      (Assign(properties, subKey, field),
       if Get(field, "example") != Undefined then Assign(example, subKey, Get(field, "example")) else example)
  }

  // ---------------------------------------------------------------------------
  // joiToSwagger itself: builds the result by assignment, looping over object keys

  method JoiToSwagger(joiSchema: SchemaNode, key: string, routeTag: string, now: string) returns (r: JsValue)
    ensures r == Transcode(joiSchema, key, routeTag, now)
    decreases joiSchema
  {
    if joiSchema == NoSchema {
      return Obj([("type", Str("string")), ("example", Str("string")), ("description", Str("Generic string field"))]);
    }

    if joiSchema.ArrayNode? {
      var items: JsValue;
      if |joiSchema.items| > 0 {
        items := JoiToSwagger(joiSchema.items[0], "", routeTag, now);
      } else {
        items := GenericSchema();  // the transcoding of `undefined`
      }
      return Obj([("type", Str("array")), ("items", items), ("example", Arr([Get(items, "example")])),
                  ("description", Str("List of " + key + "s"))]);
    }

    if joiSchema.ObjectNode? {
      var keys := joiSchema.keys;
      var properties: Fields := [];
      var example: Fields := [];
      for i := 0 to |keys|
        invariant (properties, example) == TranscodeKeys(joiSchema, i, routeTag, now)
      {
        var subKey := keys[i].0;
        var field := JoiToSwagger(keys[i].1, subKey, routeTag, now);
        properties := Assign(properties, subKey, field);
        if Get(field, "example") != Undefined {
          example := Assign(example, subKey, Get(field, "example"));
        }
      }
      return Obj([("type", Str("object")), ("properties", Obj(properties)), ("example", Obj(example))]);
    }

    var flags := joiSchema.flags;
    var typeName := if joiSchema.kind == "" then "string" else joiSchema.kind;
    var swaggerSchema: Fields := [("type", Str(typeName))];

    var enumValues := joiSchema.valids;
    if enumValues.Some? && |enumValues.value| > 0 && Undefined !in enumValues.value {
      swaggerSchema := Assign(swaggerSchema, "enum", Arr(enumValues.value));
      swaggerSchema := Assign(swaggerSchema, "example", enumValues.value[0]);
    }

    if flags.defaultValue != Undefined {
      swaggerSchema := Assign(swaggerSchema, "default", flags.defaultValue);
      if !Truthy(Lookup(swaggerSchema, "example")) {
        swaggerSchema := Assign(swaggerSchema, "example", flags.defaultValue);
      }
    }

    if Truthy(flags.description) {
      swaggerSchema := Assign(swaggerSchema, "description", flags.description);
    } else if key != "" {
      swaggerSchema := Assign(swaggerSchema, "description", Str(DescriptionFromKey(key, routeTag)));
    }

    if !Truthy(Lookup(swaggerSchema, "example")) && key != "" {
      swaggerSchema := Assign(swaggerSchema, "example", ExampleFromKey(key));
    }

    if !Truthy(Lookup(swaggerSchema, "example")) {
      swaggerSchema := Assign(swaggerSchema, "example", TypeExample(typeName, now));
    }

    r := Obj(swaggerSchema);
  }

  // ---------------------------------------------------------------------------
  // Properties of the transcoding

  /** Every transcoded node, at any depth, carries a defined example. */
  lemma ExamplePresent(node: SchemaNode, key: string, routeTag: string, now: string)
    ensures Get(Transcode(node, key, routeTag, now), "example") != Undefined
  {
    var r := Transcode(node, key, routeTag, now);
    match node
    case NoSchema =>
      LookupAt(r.fields, 1, "example");
    case ArrayNode(_, _) =>
      LookupAt(r.fields, 2, "example");
    case ObjectNode(_, _) =>
      LookupAt(r.fields, 2, "example");
    case ScalarNode(kind, valids, flags) =>
      ScalarExampleRule(kind, valids, flags, key, routeTag, now);
      FirstTruthyDefined(ExampleCandidates(valids, flags, key), TypeExample(TypeName(kind), now));
  }

  /** The first truthy candidate, or the fallback when there is none. */
  function FirstTruthy(candidates: seq<JsValue>, fallback: JsValue): (r: JsValue)
    ensures r == fallback || (r in candidates && Truthy(r))
  {
    if candidates == [] then fallback
    else if Truthy(candidates[0]) then candidates[0]
    else FirstTruthy(candidates[1..], fallback)
  }

  lemma FirstTruthyOfThree(c: seq<JsValue>, fallback: JsValue)
    requires |c| == 3
    ensures FirstTruthy(c, fallback) ==
      if Truthy(c[0]) then c[0] else if Truthy(c[1]) then c[1] else if Truthy(c[2]) then c[2] else fallback
  {
    var c1 := c[1..];
    var c2 := c1[1..];
    assert c1[0] == c[1] && c2[0] == c[2] && c2[1..] == [];
    assert FirstTruthy(c2, fallback) == if Truthy(c[2]) then c[2] else fallback;
    assert FirstTruthy(c1, fallback) == if Truthy(c[1]) then c[1] else FirstTruthy(c2, fallback);
  }

  lemma FirstTruthyDefined(candidates: seq<JsValue>, fallback: JsValue)
    requires fallback != Undefined
    ensures FirstTruthy(candidates, fallback) != Undefined
  {
    var r := FirstTruthy(candidates, fallback);
    assert r == fallback || Truthy(r);
  }

  /** The example sources of a scalar, by precedence: the first allowed value, the
      declared default, then the value suggested by the field name. An absent source
      is `undefined`. */
  function ExampleCandidates(valids: Option<seq<JsValue>>, flags: Flags, key: string): seq<JsValue> {
    [if EnumApplies(valids) then valids.value[0] else Undefined,
     flags.defaultValue,
     if key != "" then ExampleFromKey(key) else Undefined]
  }

  // Each scalar step, on the example and on every other property

  lemma EnumStep(s: Fields, valids: Option<seq<JsValue>>, q: string)
    ensures Lookup(WithEnum(s, valids), q) ==
      if EnumApplies(valids) && q == "enum" then Arr(valids.value)
      else if EnumApplies(valids) && q == "example" then valids.value[0]
      else Lookup(s, q)
    ensures DistinctKeys(s) ==> DistinctKeys(WithEnum(s, valids))
  {
    if EnumApplies(valids) {
      var e := Assign(s, "enum", Arr(valids.value));
      LookupAssign(s, "enum", Arr(valids.value), q);
      LookupAssign(e, "example", valids.value[0], q);
      if DistinctKeys(s) {
        AssignDistinct(s, "enum", Arr(valids.value));
        AssignDistinct(e, "example", valids.value[0]);
      }
    }
  }

  lemma DefaultStep(s: Fields, defaultValue: JsValue, q: string)
    ensures q != "example" ==>
              Lookup(WithDefault(s, defaultValue), q) ==
              (if q == "default" && defaultValue != Undefined then defaultValue else Lookup(s, q))
    ensures Lookup(WithDefault(s, defaultValue), "example") ==
      if defaultValue != Undefined && !Truthy(Lookup(s, "example")) then defaultValue else Lookup(s, "example")
    ensures DistinctKeys(s) ==> DistinctKeys(WithDefault(s, defaultValue))
  {
    if defaultValue != Undefined {
      var d := Assign(s, "default", defaultValue);
      LookupAssign(s, "default", defaultValue, q);
      LookupAssign(s, "default", defaultValue, "example");
      LookupAssign(d, "example", defaultValue, q);
      LookupAssign(d, "example", defaultValue, "example");
      if DistinctKeys(s) {
        AssignDistinct(s, "default", defaultValue);
        AssignDistinct(d, "example", defaultValue);
      }
    }
  }

  lemma DescriptionStep(s: Fields, description: JsValue, key: string, routeTag: string, q: string)
    ensures Lookup(WithDescription(s, description, key, routeTag), q) ==
      if q == "description" && Truthy(description) then description
      else if q == "description" && key != "" then Str(DescriptionFromKey(key, routeTag))
      else Lookup(s, q)
    ensures DistinctKeys(s) ==> DistinctKeys(WithDescription(s, description, key, routeTag))
  {
    var desc := if Truthy(description) then description else Str(DescriptionFromKey(key, routeTag));
    LookupAssign(s, "description", desc, q);
    if DistinctKeys(s) {
      AssignDistinct(s, "description", desc);
    }
  }

  lemma KeyExampleStep(s: Fields, key: string, q: string)
    ensures Lookup(WithKeyExample(s, key), q) ==
      if q == "example" && !Truthy(Lookup(s, "example")) && key != "" then ExampleFromKey(key) else Lookup(s, q)
    ensures DistinctKeys(s) ==> DistinctKeys(WithKeyExample(s, key))
  {
    LookupAssign(s, "example", ExampleFromKey(key), q);
    if DistinctKeys(s) {
      AssignDistinct(s, "example", ExampleFromKey(key));
    }
  }

  lemma TypeExampleStep(s: Fields, typeName: string, now: string, q: string)
    ensures Lookup(WithTypeExample(s, typeName, now), q) ==
      if q == "example" && !Truthy(Lookup(s, "example")) then TypeExample(typeName, now) else Lookup(s, q)
    ensures DistinctKeys(s) ==> DistinctKeys(WithTypeExample(s, typeName, now))
  {
    LookupAssign(s, "example", TypeExample(typeName, now), q);
    if DistinctKeys(s) {
      AssignDistinct(s, "example", TypeExample(typeName, now));
    }
  }

  /** The example of a scalar is the first truthy of its enum value, its default and
      its key-suggested value, and otherwise the type-based fallback. */
  lemma ScalarExampleRule(kind: ScalarType, valids: Option<seq<JsValue>>, flags: Flags,
                          key: string, routeTag: string, now: string)
    ensures Lookup(ScalarSchema(kind, valids, flags, key, routeTag, now), "example")
         == FirstTruthy(ExampleCandidates(valids, flags, key), TypeExample(TypeName(kind), now))
  {
    var typed := [("type", Str(TypeName(kind)))];
    var s2 := WithEnum(typed, valids);
    var s3 := WithDefault(s2, flags.defaultValue);
    var s4 := WithDescription(s3, flags.description, key, routeTag);
    var s5 := WithKeyExample(s4, key);
    assert Lookup(typed, "example") == Undefined;
    EnumStep(typed, valids, "example");
    DefaultStep(s2, flags.defaultValue, "example");
    DescriptionStep(s3, flags.description, key, routeTag, "example");
    KeyExampleStep(s4, key, "example");
    TypeExampleStep(s5, TypeName(kind), now, "example");
    var c := ExampleCandidates(valids, flags, key);
    FirstTruthyOfThree(c, TypeExample(TypeName(kind), now));
  }

  /** With a known current time every scalar's example is truthy. */
  lemma ScalarExampleTruthy(kind: ScalarType, valids: Option<seq<JsValue>>, flags: Flags,
                            key: string, routeTag: string, now: string)
    requires now != ""
    ensures Truthy(Lookup(ScalarSchema(kind, valids, flags, key, routeTag, now), "example"))
  {
    ScalarExampleRule(kind, valids, flags, key, routeTag, now);
  }

  /** A field whose name contains "id", with no truthy enum value or default, gets
      the numeric example id. */
  lemma IdFieldExample(kind: ScalarType, valids: Option<seq<JsValue>>, flags: Flags,
                       key: string, routeTag: string, now: string)
    requires Contains(ToLower(key), "id")
    requires !Truthy(ExampleCandidates(valids, flags, key)[0]) && !Truthy(flags.defaultValue)
    ensures Get(Transcode(ScalarNode(kind, valids, flags), key, routeTag, now), "example") == Int(125069)
  {
    ScalarExampleRule(kind, valids, flags, key, routeTag, now);
    ContainsLength(ToLower(key), "id");
    var c := ExampleCandidates(valids, flags, key);
    FirstTruthyOfThree(c, TypeExample(TypeName(kind), now));
    assert c[2] == Int(125069);
    assert Transcode(ScalarNode(kind, valids, flags), key, routeTag, now) == Obj(ScalarSchema(kind, valids, flags, key, routeTag, now));
  }

  /** The value a transcoded scalar holds under a property other than `example`: the
      type (defaulting to "string"), the allowed values exactly when they apply as an
      enum, the default exactly when declared, and the description — the declared
      one when truthy, else one derived from a non-empty key, else none. */
  function ScalarProperty(kind: ScalarType, valids: Option<seq<JsValue>>, flags: Flags,
                          key: string, routeTag: string, q: string): JsValue
  {
    if q == "type" then Str(TypeName(kind))
    else if q == "enum" && EnumApplies(valids) then Arr(valids.value)
    else if q == "default" then flags.defaultValue
    else if q == "description" && Truthy(flags.description) then flags.description
    else if q == "description" && key != "" then Str(DescriptionFromKey(key, routeTag))
    else Undefined
  }

  lemma ScalarFields(kind: ScalarType, valids: Option<seq<JsValue>>, flags: Flags,
                     key: string, routeTag: string, now: string, q: string)
    requires q != "example"
    ensures Lookup(ScalarSchema(kind, valids, flags, key, routeTag, now), q)
         == ScalarProperty(kind, valids, flags, key, routeTag, q)
  {
    var typed := [("type", Str(TypeName(kind)))];
    var s2 := WithEnum(typed, valids);
    var s3 := WithDefault(s2, flags.defaultValue);
    var s4 := WithDescription(s3, flags.description, key, routeTag);
    var s5 := WithKeyExample(s4, key);
    assert Lookup(typed, q) == if q == "type" then Str(TypeName(kind)) else Undefined;
    EnumStep(typed, valids, q);
    DefaultStep(s2, flags.defaultValue, q);
    DescriptionStep(s3, flags.description, key, routeTag, q);
    KeyExampleStep(s4, key, q);
    TypeExampleStep(s5, TypeName(kind), now, q);
  }

  /** The properties of a transcoded scalar are named once each. */
  lemma ScalarDistinct(kind: ScalarType, valids: Option<seq<JsValue>>, flags: Flags,
                       key: string, routeTag: string, now: string)
    ensures DistinctKeys(ScalarSchema(kind, valids, flags, key, routeTag, now))
  {
    var typed := [("type", Str(TypeName(kind)))];
    var s2 := WithEnum(typed, valids);
    var s3 := WithDefault(s2, flags.defaultValue);
    var s4 := WithDescription(s3, flags.description, key, routeTag);
    var s5 := WithKeyExample(s4, key);
    EnumStep(typed, valids, "");
    DefaultStep(s2, flags.defaultValue, "");
    DescriptionStep(s3, flags.description, key, routeTag, "");
    KeyExampleStep(s4, key, "");
    TypeExampleStep(s5, TypeName(kind), now, "");
  }

  /** An array node is typed `array`, described as a list of its key, and its
      example is a one-element list holding its item schema's (defined) example; the item schema is transcoded without a key, so it does not
      depend on the key the array sits under. */
  lemma ArrayExample(items: seq<SchemaNode>, flags: Flags, key: string, otherKey: string,
                     routeTag: string, now: string)
    ensures var r := Transcode(ArrayNode(items, flags), key, routeTag, now);
      && Get(r, "type") == Str("array")
      && Get(r, "description") == Str("List of " + key + "s")
      && Get(r, "example") == Arr([Get(Get(r, "items"), "example")])
      && Get(Get(r, "items"), "example") != Undefined
      && Get(r, "items") == Get(Transcode(ArrayNode(items, flags), otherKey, routeTag, now), "items")
  {
    var r := Transcode(ArrayNode(items, flags), key, routeTag, now);
    var r' := Transcode(ArrayNode(items, flags), otherKey, routeTag, now);
    LookupAt(r.fields, 0, "type");
    LookupAt(r.fields, 1, "items");
    LookupAt(r.fields, 2, "example");
    LookupAt(r.fields, 3, "description");
    LookupAt(r'.fields, 1, "items");
    if |items| > 0 {
      ExamplePresent(items[0], "", routeTag, now);
    } else {
      LookupAt(GenericSchema().fields, 1, "example");
    }
  }

  /** Names of an object's keys are distinct, as in the key map they come from. */
  predicate UniqueNames(keys: seq<(string, SchemaNode)>) {
    forall i, j :: 0 <= i < j < |keys| ==> keys[i].0 != keys[j].0
  }

  /** The transcoded properties of the keys, in key order. */
  function PropertyEntries(keys: seq<(string, SchemaNode)>, routeTag: string, now: string): (r: Fields)
    ensures |r| == |keys|
  {
    seq(|keys|, i requires 0 <= i < |keys| => (keys[i].0, Transcode(keys[i].1, keys[i].0, routeTag, now)))
  }

  /** The examples of the transcoded properties, in key order. */
  function ExampleEntries(keys: seq<(string, SchemaNode)>, routeTag: string, now: string): (r: Fields)
    ensures |r| == |keys|
  {
    seq(|keys|, i requires 0 <= i < |keys| => (keys[i].0, Get(Transcode(keys[i].1, keys[i].0, routeTag, now), "example")))
  }

  /** An object node's `properties` list each key once, in key order, with its
      transcoded schema, and its `example` holds every key in the same order with
      that schema's example. */
  lemma {:induction false} ObjectProperties(parent: SchemaNode, n: nat, routeTag: string, now: string)
    requires parent.ObjectNode? && n <= |parent.keys| && UniqueNames(parent.keys)
    ensures TranscodeKeys(parent, n, routeTag, now).0 == PropertyEntries(parent.keys[..n], routeTag, now)
    ensures TranscodeKeys(parent, n, routeTag, now).1 == ExampleEntries(parent.keys[..n], routeTag, now)
  {
    if n > 0 {
      ObjectProperties(parent, n - 1, routeTag, now);
      var keys := parent.keys;
      var props := PropertyEntries(keys[..n - 1], routeTag, now);
      var ex := ExampleEntries(keys[..n - 1], routeTag, now);
      var subKey := keys[n - 1].0;
      var field := Transcode(keys[n - 1].1, subKey, routeTag, now);
      assert TranscodeKeys(parent, n, routeTag, now) ==
        (Assign(props, subKey, field),
         if Get(field, "example") != Undefined then Assign(ex, subKey, Get(field, "example")) else ex);
      ExamplePresent(keys[n - 1].1, subKey, routeTag, now);
      NameFresh(keys, n - 1, routeTag, now);
      AssignFresh(props, subKey, field);
      AssignFresh(ex, subKey, Get(field, "example"));
      EntriesSnoc(keys, n, routeTag, now);
    }
  }

  lemma NameFresh(keys: seq<(string, SchemaNode)>, m: nat, routeTag: string, now: string)
    requires m < |keys| && UniqueNames(keys)
    ensures !HasKey(PropertyEntries(keys[..m], routeTag, now), keys[m].0)
    ensures !HasKey(ExampleEntries(keys[..m], routeTag, now), keys[m].0)
  {
    var props := PropertyEntries(keys[..m], routeTag, now);
    var ex := ExampleEntries(keys[..m], routeTag, now);
    forall i | 0 <= i < m ensures props[i].0 != keys[m].0 && ex[i].0 != keys[m].0 {
      assert props[i].0 == keys[i].0 && ex[i].0 == keys[i].0;
    }
  }

  lemma EntriesSnoc(keys: seq<(string, SchemaNode)>, n: nat, routeTag: string, now: string)
    requires 0 < n <= |keys|
    ensures PropertyEntries(keys[..n], routeTag, now) ==
      PropertyEntries(keys[..n - 1], routeTag, now) + [(keys[n - 1].0, Transcode(keys[n - 1].1, keys[n - 1].0, routeTag, now))]
    ensures ExampleEntries(keys[..n], routeTag, now) ==
      ExampleEntries(keys[..n - 1], routeTag, now) + [(keys[n - 1].0, Get(Transcode(keys[n - 1].1, keys[n - 1].0, routeTag, now), "example"))]
  {
  }

  /** The whole object node: its transcoding lists the key properties in order and
      an example with exactly the same keys. */
  lemma ObjectTranscode(keys: seq<(string, SchemaNode)>, flags: Flags, key: string, routeTag: string, now: string)
    requires UniqueNames(keys)
    ensures var r := Transcode(ObjectNode(keys, flags), key, routeTag, now);
      && Get(r, "properties") == Obj(PropertyEntries(keys, routeTag, now))
      && Get(r, "example") == Obj(ExampleEntries(keys, routeTag, now))
      && Keys(Get(r, "properties").fields) == Keys(Get(r, "example").fields)
  {
    var r := Transcode(ObjectNode(keys, flags), key, routeTag, now);
    var built := TranscodeKeys(ObjectNode(keys, flags), |keys|, routeTag, now);
    assert r.fields == [("type", Str("object")), ("properties", Obj(built.0)), ("example", Obj(built.1))];
    ObjectProperties(ObjectNode(keys, flags), |keys|, routeTag, now);
    assert keys[..|keys|] == keys;
    LookupAt(r.fields, 1, "properties");
    LookupAt(r.fields, 2, "example");
  }

  // ---------------------------------------------------------------------------
  // Section extraction (extractSchemas.js:83-121)

  /** A named validation schema: its three request sections, each possibly absent. */
  datatype SchemaObject = SchemaObject(body: SchemaNode, params: SchemaNode, query: SchemaNode)

  /** The registry of named schemas: module name, then schema name. */
  type Registry = map<string, map<string, SchemaObject>>

  /** What a named schema contributes to an operation. */
  datatype Extracted = Extracted(requestBodySchema: Fields, parameters: seq<Fields>)

  /** The error raised when a key's schema is missing and its flags are read. */
  const FlagsOfMissingSchema := TypeError("Cannot read properties of undefined (reading '_flags')")

  /** The sections in the order they are visited. */
  function SectionsOf(schemaObject: SchemaObject): seq<(string, SchemaNode)> {
    [("body", schemaObject.body), ("params", schemaObject.params), ("query", schemaObject.query)]
  }

  /** `moduleName.schemaName`; with no dot the schema name is `undefined`, which as a
      property key reads "undefined". */
  function SchemaRef(schemaString: string): (string, string) {
    var parts := Split(schemaString, '.');
    (parts[0], if |parts| > 1 then parts[1] else "undefined")
  }

  function FirstNonEmpty(parts: seq<string>): Option<string> {
    if parts == [] then None
    else if parts[0] != "" then Some(parts[0])
    else FirstNonEmpty(parts[1..])
  }

  /** The tag used in generated descriptions: the first non-empty path segment, else
      the module name, lower-cased either way. */
  function RouteTag(routePath: string, moduleName: string): (r: string)
    ensures ToLower(r) == r
    ensures FirstNonEmpty(Split(routePath, '/')).Some? ==> r != ""
  {
    var first := FirstNonEmpty(Split(routePath, '/'));
    FirstNonEmptyNonEmpty(Split(routePath, '/'));
    if first.Some? then
      LowerIdempotent(first.value);
      ToLower(first.value)
    else
      LowerIdempotent(moduleName);
      ToLower(moduleName)
  }

  /** Routes pass their file prefix `/<stem>` as the route path, so the tag is the
      stem lower-cased; with no path segment at all it is the module name lower-cased. */
  lemma RouteTagOfPrefix(stem: string, moduleName: string)
    requires stem != "" && Free(stem, '/')
    ensures RouteTag("/" + stem, moduleName) == ToLower(stem)
    ensures RouteTag("", moduleName) == ToLower(moduleName)
    ensures RouteTag("/", moduleName) == ToLower(moduleName)
  {
    SplitFree(stem, '/');
    SplitAfter("", '/', stem);
    assert "/" + stem == "" + ['/'] + stem;
    assert FirstNonEmpty(["", stem]) == FirstNonEmpty([stem]);
    SplitAfter("", '/', "");
    assert "/" == "" + ['/'] + "";
    assert FirstNonEmpty(["", ""]) == FirstNonEmpty([""]);
  }

  lemma FirstNonEmptyNonEmpty(parts: seq<string>)
    ensures FirstNonEmpty(parts).Some? ==> FirstNonEmpty(parts).value != ""
  {
  }

  /** The parameter object for a `params` or `query` key. */
  function ParameterObject(name: string, location: string, required: bool, fieldSchema: JsValue): Fields {
    [("name", Str(name)), ("in", Str(location)), ("required", Bool(required)),
     ("description", Or(Get(fieldSchema, "description"), Str(""))), ("type", fieldSchema),
     ("example", Get(fieldSchema, "example")), ("default", Get(fieldSchema, "default"))]
  }

  function Location(section: string): string {
    if section == "params" then "path" else "query"
  }

  /** One key of a section added to what has been collected. */
  function CollectKey(acc: Extracted, section: string, key: string, meta: SchemaNode,
                      routeTag: string, now: string): Result<Extracted>
  {
    if meta == NoSchema then Err(FlagsOfMissingSchema)
    else
      var fieldSchema := Transcode(meta, key, routeTag, now);
      if section == "body" then
        Ok(acc.(requestBodySchema := Assign(acc.requestBodySchema, key, fieldSchema)))
      else
        Ok(acc.(parameters := acc.parameters +
          [ParameterObject(key, Location(section), meta.flags.presence == Str("required"), fieldSchema)]))
  }

  /** The keys of one section added in order; the first missing schema is an error. */
  function CollectKeys(acc: Extracted, section: string, keys: seq<(string, SchemaNode)>,
                       routeTag: string, now: string): Result<Extracted>
    decreases |keys|
  {
    if keys == [] then Ok(acc)
    else
      var prev :- CollectKeys(acc, section, keys[..|keys| - 1], routeTag, now);
      CollectKey(prev, section, keys[|keys| - 1].0, keys[|keys| - 1].1, routeTag, now)
  }

  /** The sections collected in order, skipping absent ones. */
  function Collect(sections: seq<(string, SchemaNode)>, routeTag: string, now: string): Result<Extracted>
    decreases |sections|
  {
    if sections == [] then Ok(Extracted([], []))
    else
      var acc :- Collect(sections[..|sections| - 1], routeTag, now);
      var (section, node) := sections[|sections| - 1];
      if node == NoSchema then Ok(acc) else CollectKeys(acc, section, KeysOf(node), routeTag, now)
  }

  /** `extractSwaggerSchema(schemaString, schemas, routePath)`. */
  function SwaggerSchemaOf(schemaString: string, schemas: Registry, routePath: string, now: string): Result<Extracted> {
    var (moduleName, schemaName) := SchemaRef(schemaString);
    if moduleName !in schemas || schemaName !in schemas[moduleName] then Ok(Extracted([], []))
    else Collect(SectionsOf(schemas[moduleName][schemaName]), RouteTag(routePath, moduleName), now)
  }

  method ExtractSwaggerSchema(schemaString: string, schemas: Registry, routePath: string, now: string)
    returns (r: Result<Extracted>)
    ensures r == SwaggerSchemaOf(schemaString, schemas, routePath, now)
  {
    var parts := Split(schemaString, '.');
    var moduleName := parts[0];
    var schemaName := if |parts| > 1 then parts[1] else "undefined";
    if moduleName !in schemas {
      return Ok(Extracted([], []));
    }
    if schemaName !in schemas[moduleName] {
      return Ok(Extracted([], []));
    }
    var schemaObject := schemas[moduleName][schemaName];
    var routeTag := RouteTag(routePath, moduleName);
    var requestBodySchema: Fields := [];
    var parameters: seq<Fields> := [];
    var sections := SectionsOf(schemaObject);

    for s := 0 to |sections|
      invariant Collect(sections[..s], routeTag, now) == Ok(Extracted(requestBodySchema, parameters))
    {
      assert sections[..s + 1][..s] == sections[..s];
      var section := sections[s].0;
      var joiSection := sections[s].1;
      if joiSection == NoSchema {
        continue;
      }
      var collected := CollectSectionKeys(Extracted(requestBodySchema, parameters), section, KeysOf(joiSection), routeTag, now);
      if collected.Err? {
        CollectErrorStays(sections, s + 1, routeTag, now);
        assert sections[..|sections|] == sections;
        return collected;
      }
      requestBodySchema := collected.value.requestBodySchema;
      parameters := collected.value.parameters;
    }
    assert sections[..|sections|] == sections;
    return Ok(Extracted(requestBodySchema, parameters));
  }

  /** The keys of one section, in order, added to what earlier sections collected. */
  method CollectSectionKeys(before: Extracted, section: string, joiKeys: seq<(string, SchemaNode)>,
                            routeTag: string, now: string) returns (r: Result<Extracted>)
    ensures r == CollectKeys(before, section, joiKeys, routeTag, now)
    ensures r.Err? ==> r == Err(FlagsOfMissingSchema)
  {
    var requestBodySchema := before.requestBodySchema;
    var parameters := before.parameters;
    for j := 0 to |joiKeys|
      invariant CollectKeys(before, section, joiKeys[..j], routeTag, now) == Ok(Extracted(requestBodySchema, parameters))
    {
      assert joiKeys[..j + 1][..j] == joiKeys[..j];
      var key := joiKeys[j].0;
      var meta := joiKeys[j].1;
      var fieldSchema := JoiToSwagger(meta, key, routeTag, now);
      if meta == NoSchema {
        CollectKeysErrorStays(before, section, joiKeys, j + 1, routeTag, now);
        return Err(FlagsOfMissingSchema);
      }
      assert CollectKeys(before, section, joiKeys[..j + 1], routeTag, now) ==
        CollectKey(Extracted(requestBodySchema, parameters), section, key, meta, routeTag, now);
      var isRequired := meta.flags.presence == Str("required");
      if section == "body" {
        requestBodySchema := Assign(requestBodySchema, key, fieldSchema);
      } else {
        parameters := parameters + [ParameterObject(key, if section == "params" then "path" else "query", isRequired, fieldSchema)];
      }
    }
    assert joiKeys[..|joiKeys|] == joiKeys;
    return Ok(Extracted(requestBodySchema, parameters));
  }

  /** Once a prefix of a section's keys fails, the whole section fails the same way. */
  lemma {:induction false} CollectKeysErrorStays(acc: Extracted, section: string, keys: seq<(string, SchemaNode)>,
                                                 j: nat, routeTag: string, now: string)
    requires j <= |keys| && CollectKeys(acc, section, keys[..j], routeTag, now) == Err(FlagsOfMissingSchema)
    ensures CollectKeys(acc, section, keys, routeTag, now) == Err(FlagsOfMissingSchema)
    decreases |keys|
  {
    if j < |keys| {
      assert keys[..|keys| - 1][..j] == keys[..j];
      CollectKeysErrorStays(acc, section, keys[..|keys| - 1], j, routeTag, now);
    } else {
      assert keys[..j] == keys;
    }
  }

  /** Once a prefix of the sections fails, the whole extraction fails the same way. */
  lemma {:induction false} CollectErrorStays(sections: seq<(string, SchemaNode)>, s: nat, routeTag: string, now: string)
    requires s <= |sections| && Collect(sections[..s], routeTag, now) == Err(FlagsOfMissingSchema)
    ensures Collect(sections, routeTag, now) == Err(FlagsOfMissingSchema)
    decreases |sections|
  {
    if s < |sections| {
      assert sections[..|sections| - 1][..s] == sections[..s];
      CollectErrorStays(sections[..|sections| - 1], s, routeTag, now);
    } else {
      assert sections[..s] == sections;
    }
  }

  // ---------------------------------------------------------------------------
  // What extraction produces, stated directly

  predicate AllPresent(keys: seq<(string, SchemaNode)>) {
    forall i :: 0 <= i < |keys| ==> keys[i].1 != NoSchema
  }

  /** A key is required when its schema's `presence` flag is "required". */
  predicate IsRequired(meta: SchemaNode) {
    !meta.NoSchema? && meta.flags.presence == Str("required")
  }

  /** One parameter object per key, in key order. */
  function ParameterEntries(keys: seq<(string, SchemaNode)>, location: string, routeTag: string, now: string): (r: seq<Fields>)
    ensures |r| == |keys|
  {
    seq(|keys|, i requires 0 <= i < |keys| => ParameterEntry(keys[i], location, routeTag, now))
  }

  function ParameterEntry(key: (string, SchemaNode), location: string, routeTag: string, now: string): Fields {
    ParameterObject(key.0, location, IsRequired(key.1), Transcode(key.1, key.0, routeTag, now))
  }

  lemma CollectKeysSpec(acc: Extracted, section: string, keys: seq<(string, SchemaNode)>,
                        routeTag: string, now: string)
    requires section == "body" ==> acc.requestBodySchema == [] && UniqueNames(keys)
    ensures CollectKeys(acc, section, keys, routeTag, now).Ok? <==> AllPresent(keys)
    ensures CollectKeys(acc, section, keys, routeTag, now).Ok? ==>
      CollectKeys(acc, section, keys, routeTag, now).value ==
        if section == "body" then acc.(requestBodySchema := PropertyEntries(keys, routeTag, now))
        else acc.(parameters := acc.parameters + ParameterEntries(keys, Location(section), routeTag, now))
  {
    if section == "body" {
      CollectBodySpec(acc, keys, routeTag, now);
    } else {
      CollectParametersSpec(acc, section, keys, routeTag, now);
    }
  }

  /** `body` keys become the request body's properties, in order. */
  lemma {:induction false} CollectBodySpec(acc: Extracted, keys: seq<(string, SchemaNode)>, routeTag: string, now: string)
    requires acc.requestBodySchema == [] && UniqueNames(keys)
    ensures CollectKeys(acc, "body", keys, routeTag, now).Ok? <==> AllPresent(keys)
    ensures CollectKeys(acc, "body", keys, routeTag, now).Ok? ==>
      CollectKeys(acc, "body", keys, routeTag, now).value == acc.(requestBodySchema := PropertyEntries(keys, routeTag, now))
    decreases |keys|
  {
    if keys != [] {
      var n := |keys|;
      var init := keys[..n - 1];
      CollectBodySpec(acc, init, routeTag, now);
      AllPresentSnoc(keys);
      if AllPresent(keys) {
        var prev := CollectKeys(acc, "body", init, routeTag, now).value;
        var k := keys[n - 1].0;
        var field := Transcode(keys[n - 1].1, k, routeTag, now);
        NameFresh(keys, n - 1, routeTag, now);
        AssignFresh(prev.requestBodySchema, k, field);
        EntriesSnoc(keys, n, routeTag, now);
        assert keys[..n] == keys;
      }
    }
  }

  /** `params` and `query` keys are appended as parameter objects, in order. */
  lemma {:induction false} CollectParametersSpec(acc: Extracted, section: string, keys: seq<(string, SchemaNode)>,
                                                 routeTag: string, now: string)
    requires section != "body"
    ensures CollectKeys(acc, section, keys, routeTag, now).Ok? <==> AllPresent(keys)
    ensures CollectKeys(acc, section, keys, routeTag, now).Ok? ==>
      CollectKeys(acc, section, keys, routeTag, now).value ==
        acc.(parameters := acc.parameters + ParameterEntries(keys, Location(section), routeTag, now))
    decreases |keys|
  {
    if keys != [] {
      CollectParametersSpec(acc, section, keys[..|keys| - 1], routeTag, now);
      AllPresentSnoc(keys);
      if AllPresent(keys) {
        ParameterEntriesSnoc(keys, Location(section), routeTag, now);
        var last := keys[|keys| - 1];
        assert CollectKey(CollectKeys(acc, section, keys[..|keys| - 1], routeTag, now).value, section, last.0, last.1, routeTag, now).value.parameters
          == CollectKeys(acc, section, keys[..|keys| - 1], routeTag, now).value.parameters + [ParameterEntry(last, Location(section), routeTag, now)];
      }
    }
  }

  lemma AllPresentSnoc(keys: seq<(string, SchemaNode)>)
    requires keys != []
    ensures AllPresent(keys) <==> AllPresent(keys[..|keys| - 1]) && keys[|keys| - 1].1 != NoSchema
  {
    var n := |keys|;
    if AllPresent(keys[..n - 1]) && keys[n - 1].1 != NoSchema {
      forall i | 0 <= i < n ensures keys[i].1 != NoSchema {
        if i < n - 1 { assert keys[i] == keys[..n - 1][i]; }
      }
    }
  }

  lemma ParameterEntriesSnoc(keys: seq<(string, SchemaNode)>, location: string, routeTag: string, now: string)
    requires keys != []
    ensures ParameterEntries(keys, location, routeTag, now) ==
      ParameterEntries(keys[..|keys| - 1], location, routeTag, now) +
      [ParameterEntry(keys[|keys| - 1], location, routeTag, now)]
  {
    var n := |keys|;
    var init := ParameterEntries(keys[..n - 1], location, routeTag, now);
    forall i | 0 <= i < n - 1 ensures ParameterEntries(keys, location, routeTag, now)[i] == init[i] {
      assert keys[..n - 1][i] == keys[i];
    }
  }

  /** The first section, `body`, gives the request body's properties. */
  lemma CollectBodySection(schemaObject: SchemaObject, routeTag: string, now: string)
    requires UniqueNames(KeysOf(schemaObject.body))
    ensures Collect(SectionsOf(schemaObject)[..1], routeTag, now).Ok? <==> AllPresent(KeysOf(schemaObject.body))
    ensures Collect(SectionsOf(schemaObject)[..1], routeTag, now).Ok? ==>
      Collect(SectionsOf(schemaObject)[..1], routeTag, now).value ==
        Extracted(PropertyEntries(KeysOf(schemaObject.body), routeTag, now), [])
  {
    var sections := SectionsOf(schemaObject);
    var empty := Extracted([], []);
    assert sections[..1] == [("body", schemaObject.body)];
    assert sections[..1][..0] == [];
    assert schemaObject.body == NoSchema ==> PropertyEntries(KeysOf(schemaObject.body), routeTag, now) == [];
    assert Collect(sections[..1][..0], routeTag, now) == Ok(empty);
    CollectKeysSpec(empty, "body", KeysOf(schemaObject.body), routeTag, now);
  }

  /** The extraction of a named schema's sections: it fails exactly when some key of
      a present section has no schema; otherwise the request body lists the `body`
      keys in order with their transcoded schemas, and the parameters are the
      `params` keys (in the path) followed by the `query` keys (in the query). */
  lemma ExtractSections(schemaObject: SchemaObject, routeTag: string, now: string)
    requires UniqueNames(KeysOf(schemaObject.body))
    ensures var r := Collect(SectionsOf(schemaObject), routeTag, now);
      && (r.Ok? <==> AllPresent(KeysOf(schemaObject.body)) && AllPresent(KeysOf(schemaObject.params))
                     && AllPresent(KeysOf(schemaObject.query)))
      && (r.Ok? ==> r.value == Extracted(PropertyEntries(KeysOf(schemaObject.body), routeTag, now),
                                         ParameterEntries(KeysOf(schemaObject.params), "path", routeTag, now) +
                                         ParameterEntries(KeysOf(schemaObject.query), "query", routeTag, now)))
  {
    var sections := SectionsOf(schemaObject);
    assert sections[..3] == sections;
    assert sections[..3][..2] == sections[..2] && sections[..2][..1] == sections[..1];
    var body := PropertyEntries(KeysOf(schemaObject.body), routeTag, now);
    var inPath := ParameterEntries(KeysOf(schemaObject.params), "path", routeTag, now);
    var inQuery := ParameterEntries(KeysOf(schemaObject.query), "query", routeTag, now);
    var r1 := Collect(sections[..1], routeTag, now);
    CollectBodySection(schemaObject, routeTag, now);
    if r1.Ok? {
      CollectKeysSpec(r1.value, "params", KeysOf(schemaObject.params), routeTag, now);
      var r2 := Collect(sections[..2], routeTag, now);
      assert r2.Ok? ==> r2.value == Extracted(body, inPath);
      if r2.Ok? {
        CollectKeysSpec(r2.value, "query", KeysOf(schemaObject.query), routeTag, now);
        var r3 := Collect(sections[..3], routeTag, now);
        assert r3.Ok? ==> r3.value == Extracted(body, inPath + inQuery);
      }
    }
  }

  /** `extractSwaggerSchema` as a whole: an unknown module or schema name gives an
      empty body and no parameters; a known one gives its sections' extraction. */
  lemma SwaggerSchemaShape(schemaString: string, schemas: Registry, routePath: string, now: string)
    requires var (m, n) := SchemaRef(schemaString);
      m in schemas && n in schemas[m] ==> UniqueNames(KeysOf(schemas[m][n].body))
    ensures var (m, n) := SchemaRef(schemaString);
      var r := SwaggerSchemaOf(schemaString, schemas, routePath, now);
      && (m !in schemas || n !in schemas[m] ==> r == Ok(Extracted([], [])))
      && (m in schemas && n in schemas[m] ==>
            var so := schemas[m][n];
            var tag := RouteTag(routePath, m);
            && (r.Ok? <==> AllPresent(KeysOf(so.body)) && AllPresent(KeysOf(so.params)) && AllPresent(KeysOf(so.query)))
            && (r.Ok? ==> r.value == Extracted(PropertyEntries(KeysOf(so.body), tag, now),
                                               ParameterEntries(KeysOf(so.params), "path", tag, now) +
                                               ParameterEntries(KeysOf(so.query), "query", tag, now))))
  {
    var (m, n) := SchemaRef(schemaString);
    if m in schemas && n in schemas[m] {
      ExtractSections(schemas[m][n], RouteTag(routePath, m), now);
    }
  }
}
