/** The older copy of `generateSwaggerDoc` kept at the repository root
    (generateSwaggerDoc.js). Its `buildSchema`, `buildResponseSchema` and operation
    assembly are those of utils/generateSwaggerDoc.js; only the schema of a listed
    parameter is built differently, from the parameter's `type`, `itemsType`,
    `example` and `default`. */
module LegacySwaggerDoc {
  import opened Json
  import SchemaTranscoder
  import opened SwaggerDoc

  /** The parameter schema: an array description for `type == "array"` (items typed
      by `itemsType`, "string" when that is falsy), otherwise `type`, `example` and
      `default` copied. */
  function LegacySchema(param: Fields): JsValue {
    if Lookup(param, "type") == Str("array") then
      Obj([("type", Str("array")),
           ("items", Obj([("type", Or(Lookup(param, "itemsType"), Str("string")))])),
           ("example", Lookup(param, "example"))])
    else
      Obj([("type", Lookup(param, "type")),
           ("example", Lookup(param, "example")),
           ("default", Lookup(param, "default"))])
  }

  function LegacyParameter(param: Fields): Fields {
    ParameterWithSchema(param, LegacySchema(param))
  }

  /** `generateSwaggerDoc(route)` of generateSwaggerDoc.js. */
  function LegacyGenerateSwaggerDoc(route: Route): Result<JsValue> {
    SwaggerDocWith(route, LegacyParameter)
  }

  /** The parameter schema rules: an array parameter is described by its item type,
      defaulting to "string", and its example; any other parameter by its type,
      example and default. */
  lemma LegacySchemaRules(param: Fields)
    ensures var s := LegacySchema(param);
      && s.Obj?
      && (Lookup(param, "type") == Str("array") ==>
            && Keys(s.fields) == ["type", "items", "example"]
            && Get(s, "type") == Str("array")
            && Get(Get(s, "items"), "type") == (if Truthy(Lookup(param, "itemsType")) then Lookup(param, "itemsType") else Str("string"))
            && Get(s, "example") == Lookup(param, "example"))
      && (Lookup(param, "type") != Str("array") ==>
            && Keys(s.fields) == ["type", "example", "default"]
            && Get(s, "type") == Lookup(param, "type")
            && Get(s, "example") == Lookup(param, "example")
            && Get(s, "default") == Lookup(param, "default"))
  {
    var s := LegacySchema(param);
    if Lookup(param, "type") == Str("array") {
      LookupAt(s.fields, 1, "items");
      LookupAt(s.fields, 2, "example");
    } else {
      LookupAt(s.fields, 1, "example");
      LookupAt(s.fields, 2, "default");
    }
  }

  /** A parameter produced by schema extraction carries its transcoded schema under
      `type`, which is never the string "array"; the older copy therefore nests the
      whole transcoded schema one level down, under `schema.type`. */
  lemma LegacyNestsExtracted(name: string, location: string, required: bool, fieldSchema: JsValue)
    requires fieldSchema.Obj?
    ensures var param := SchemaTranscoder.ParameterObject(name, location, required, fieldSchema);
      Get(Lookup(LegacyParameter(param), "schema"), "type") == fieldSchema
  {
    var param := SchemaTranscoder.ParameterObject(name, location, required, fieldSchema);
    LookupAt(param, 4, "type");
    ParameterRules(param, LegacySchema(param));
  }

  /** The two copies fail on the same routes; without parameters they produce the
      same fragment; and in any case every operation field other than `parameters`
      is the same, so the shape, tag, request-body and response rules proved for the
      utils copy hold for this one too. */
  lemma LegacyMatchesUtils(route: Route)
    ensures LegacyGenerateSwaggerDoc(route).Ok? <==> GenerateSwaggerDoc(route).Ok?
    ensures route.parameters == [] ==> LegacyGenerateSwaggerDoc(route) == GenerateSwaggerDoc(route)
    ensures LegacyGenerateSwaggerDoc(route).Ok? ==>
      var legacy := OperationIn(LegacyGenerateSwaggerDoc(route).value, route);
      var current := OperationIn(GenerateSwaggerDoc(route).value, route);
      && Keys(legacy.fields) == Keys(current.fields)
      && Get(legacy, "summary") == Get(current, "summary")
      && Get(legacy, "description") == Get(current, "description")
      && Get(legacy, "tags") == Get(current, "tags")
      && Get(legacy, "security") == Get(current, "security")
      && Get(legacy, "requestBody") == Get(current, "requestBody")
      && Get(legacy, "responses") == Get(current, "responses")
  {
    if route.parameters == [] {
      assert Operation(route, LegacyParameter, Undefined, Undefined).fields[4] ==
             Operation(route, OperationParameter, Undefined, Undefined).fields[4];
    }
    if LegacyGenerateSwaggerDoc(route).Ok? {
      var requestBody := RequestBody(route.httpMethod.value, route.requestBodySchema).value;
      var responseSchema := BuildResponseSchema(route.responseSchema).value;
      assert OperationIn(LegacyGenerateSwaggerDoc(route).value, route) ==
             Operation(route, LegacyParameter, requestBody, responseSchema);
      assert OperationIn(GenerateSwaggerDoc(route).value, route) ==
             Operation(route, OperationParameter, requestBody, responseSchema);
    }
  }
}
