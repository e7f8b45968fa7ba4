# swagger-autogen core, modelled in Dafny

swagger-autogen reads the Express route files of a backend (`*.route.js`), finds every
`router.<method>(path, ...middlewares)` call and turns each into an OpenAPI 3.0
operation. It resolves the `Validation.validate(Module.Schema)` middleware against a
registry of Joi schemas to get the request body and the parameters. It merges
user-supplied response overrides and then folds the operations into one `paths`
object.

This project models that pipeline on explicit values:

- `Json` (json.dfy) holds JavaScript values: `undefined`, `null`, booleans, integers,
  strings, arrays and objects as ordered key/value lists. It also has JS truthiness,
  `typeof`, property reads, property assignment (replace in place or append) and the
  object spread `{ ...a, ...b }`. Thrown `TypeError`s become the `Err` case of a
  `Result`.
- `Text` (text.dfy) holds the string operations the code relies on:
  - `split` and `join`
  - `startsWith`, `endsWith` and `includes`
  - a first-occurrence `replace`
  - ASCII case mapping
- `PathTemplate` (transform_path.dfy) is `transformRoutePath`. It rewrites each `:name`
  segment to `{name}`, as in the Path Templating section of the OpenAPI
  Specification 3.0.
- `SchemaTranscoder` (extract_schemas.dfy) covers these:
  - `generateExampleFromKey` and `generateDescriptionFromKey`.
  - `joiToSwagger`: a method that builds its result by property assignment, with a
    loop over an object node's keys. It is proved equal to a recursive
    specification `Transcode`.
  - `extractSwaggerSchema`: a method with the section and key loops, proved equal
    to `SwaggerSchemaOf`.

  A Joi schema is given as a `SchemaNode` tree. An object's `_ids._byKey` map becomes
  an ordered list of (name, node) pairs. `_valids` and `_flags` become optional fields
  of a scalar node.
- `SwaggerDoc` (swagger_doc.dfy) is `generateSwaggerDoc` of utils/generateSwaggerDoc.js,
  the version the pipeline uses. It has `buildSchema`, the first-match-wins
  classifier `buildResponseSchema` with its fixed `{success, message, code, data}`
  envelope, and the assembly of the operation object.
- `LegacySwaggerDoc` (legacy_swagger_doc.dfy) is the unused duplicate in the
  repository root. Its `buildSchema` and `buildResponseSchema` are the utils ones
  apart from formatting, so they are shared. Only its parameter-schema mapping is
  separate.
- `RouteExtractor` (extract_routes.dfy) is the `CallExpression` visitor of
  `parseRoutes`. It covers router-call recognition, the validator and controller
  searches, the file prefix, the `/dashboard` exemption, response overrides, and
  descriptor accumulation across files. Those run as methods with loops, proved
  against recursive specifications.
- `Documentation` (generate_documentation.dfy) is `generateDocumentation`, the
  `reduce` with `{ ...acc, ...doc }`.

The code is modelled as written. Four places behave differently from what the
surrounding code evidently intends (see "## Findings"). For each of them the model
carries the behaviour as written and a corrected counterpart beside it:

- `RouteExtractor.Wiring` selects between `AsWritten` and `Corrected`.
- `SwaggerDoc.OperationParameter` has the corrected counterpart
  `SwaggerDoc.OperationParameterFixed`.
- `Documentation.GenerateDocumentation` has the corrected counterpart
  `Documentation.GenerateDocumentationFixed`.

In these places the code behaves differently from what a reader of the tool's
description might expect. The model follows the code:

- The example cascade takes the first enum value ahead of a declared default. It
  replaces every falsy example, not only an absent one.
- The description templates match `custid` exactly, not any key containing "id".
- The unenveloped response fallback is also reached by falsy primitive `data` such
  as `0`, `""` and `false`, and by a `data` object that matches none of the six
  cases.
- A numeric or boolean literal as a route path throws. It does not degrade to `""`.
- A top-level `body`, `params` or `query` key without a schema throws when its
  flags are read. A nested object key without a schema gets the generic string
  schema and does not throw.
- A `null` response-override map throws before any file is read.

## Model

| member | source | states |
|---|---|---|
| PathTemplate.TransformRoutePath | utils/transformPath.js:1-5 | the result is empty exactly when the path is absent or empty |
| PathTemplate.TemplateSegment | utils/transformPath.js:4 | a segment starting with `:` becomes `{` + the segment without its colon + `}`; every other segment is unchanged |
| PathTemplate.TemplatedEmpty | utils/transformPath.js:2-5 | the templated join is empty exactly when the input path is empty |
| PathTemplate.TransformSegments | utils/transformPath.js:2-5 | splitting the result at `/` gives the input's segments, each templated, and hence as many segments as the input |
| PathTemplate.NoParametersUnchanged | utils/transformPath.js:3-5 | a path with no `:`-prefixed segment is returned unchanged |
| PathTemplate.TransformIdempotent | utils/transformPath.js:4 | templating an already templated path changes nothing |
| PathTemplate.TemplateAllIdempotent | utils/transformPath.js:4 | the segment-wise rewrite is idempotent on any segment list |
| PathTemplate.ResourceWithParameter | utils/transformPath.js:2-5 | `/<resource>/:<name>` becomes `/<resource>/{<name>}` for any slash-free resource and name |
| PathTemplate.ExampleDoubleColon | utils/transformPath.js:4 | only the leading colon is stripped: `/::a` becomes `/{:a}` |
| SchemaTranscoder.ExampleFromKey | extractSchemas.js:4-14 | a key containing "id" in any case gives 125069, whatever else it contains; the result is falsy exactly for `start`; it is `"example"` exactly when no pattern matches |
| SchemaTranscoder.DescriptionFromKey | extractSchemas.js:16-23 | every suggested description is non-empty and names the route tag |
| SchemaTranscoder.JoiToSwagger | extractSchemas.js:25-81 | building the schema by assignment, with the loop over an object's keys, yields exactly the recursive transcoding `Transcode` |
| SchemaTranscoder.ExamplePresent | extractSchemas.js:25-81 | every transcoded node, at any depth, has a defined `example` |
| SchemaTranscoder.ScalarExampleRule | extractSchemas.js:50-78 | a scalar's example is the first truthy one of: the first enum value (when the value set applies), the default, and the key-suggested example; failing all three it is the type-based fallback |
| SchemaTranscoder.ScalarExampleTruthy | extractSchemas.js:69-78 | a scalar's example is always truthy, so falsy candidates such as `0` for `start` are replaced |
| SchemaTranscoder.IdFieldExample | extractSchemas.js:67 | a scalar under an id-like key with no truthy enum value or default gets example 125069 |
| SchemaTranscoder.ScalarFields | extractSchemas.js:47-65 | `type` defaults to "string"; `enum` is present exactly when the value set is non-empty and free of undefined; `default` is the declared default; the description is the declared one when truthy, else derived from a non-empty key, else absent |
| SchemaTranscoder.ScalarDistinct | extractSchemas.js:47-80 | a transcoded scalar never holds a property twice |
| SchemaTranscoder.ArrayExample | extractSchemas.js:30-33 | an array node is typed `array` and described as "List of <key>s"; its example is the one-element list of its item schema's defined example; the item schema does not depend on the key |
| SchemaTranscoder.ObjectProperties | extractSchemas.js:37-43 | after the first n keys the loop's `properties` and `example` are the transcodings and examples of those keys, in declaration order |
| SchemaTranscoder.ObjectTranscode | extractSchemas.js:35-44 | `properties` holds every child key in declaration order with its transcoding; `example` holds the same keys with their examples |
| SchemaTranscoder.RouteTag | extractSchemas.js:90 | the tag is lower case, and it is non-empty whenever the route path has a non-empty segment |
| SchemaTranscoder.RouteTagOfPrefix | extractSchemas.js:90 | for a route path `/stem` with a slash-free stem the tag is the stem lower-cased; for an empty path or `/` it is the module name lower-cased |
| SchemaTranscoder.ExtractSwaggerSchema | extractSchemas.js:83-121 | the section and key loops yield exactly `SwaggerSchemaOf` |
| SchemaTranscoder.CollectSectionKeys | extractSchemas.js:99-117 | the key loop of one section yields exactly the recursive `CollectKeys`; its only failure is the read of flags of a missing schema |
| SchemaTranscoder.CollectKeysSpec | extractSchemas.js:99-117 | a section succeeds exactly when every key has a schema; body keys fill `requestBodySchema`; other keys append one parameter each, in order |
| SchemaTranscoder.ExtractSections | extractSchemas.js:93-120 | extraction succeeds exactly when all three sections' keys have schemas; body fields go only to the request body; parameters are the `params` fields as `in: path`, then the `query` fields as `in: query`, with `required` exactly for presence "required" |
| SchemaTranscoder.SwaggerSchemaShape | extractSchemas.js:83-121 | an unknown module or schema name gives an empty body and no parameters; otherwise the result is the sections' extraction under the route tag |
| SwaggerDoc.BuildSchema | utils/generateSwaggerDoc.js:12-15 | a falsy or non-object input becomes `{type: typeof input, example: input}` |
| SwaggerDoc.BuildEntry | utils/generateSwaggerDoc.js:18-49 | a nullish property value throws; a built entry is an object with the value's `type` |
| SwaggerDoc.BuildEntriesSpec | utils/generateSwaggerDoc.js:17-51 | the entry map succeeds exactly when every entry builds, and then holds the built entries in order |
| SwaggerDoc.BuildSchemaKeys | utils/generateSwaggerDoc.js:12-52 | on an object, `buildSchema` succeeds exactly when every entry builds; it keeps the key list and each entry's `type` |
| SwaggerDoc.BuildEntryDefaults | utils/generateSwaggerDoc.js:19-47 | an array entry without `items` gets string items; non-object items default type to "string" and example to ""; an object entry without `properties` gets `{}` |
| SwaggerDoc.BuildEntryContents | utils/generateSwaggerDoc.js:19-49 | a scalar entry is exactly `{type, example}` of the value; an object entry with properties is `{type: "object", properties}` holding the `buildSchema` of those properties and succeeds exactly when that does; an array of object items holds `buildSchema` of the items' properties, or `{}` when they have none |
| SwaggerDoc.ResponseShapes | utils/generateSwaggerDoc.js:54-174 | a non-object gives `{}`; the fallback is the unenveloped `buildSchema` of the whole input; every other case, first match wins, is the fixed envelope whose `data.type` is the case's type |
| SwaggerDoc.ResponseDataSchemas | utils/generateSwaggerDoc.js:58-167 | per case, in terms of `data`: primitive data gives `{type: typeof data, example: data}`; `null` data gives `{type: "null"}`; an item list gives array items from the first element's type and example when its type is truthy, else string; object-typed items and data properties hold the `buildSchema` of the properties and fail exactly when it does; other typed items and array data get defaulted items |
| SwaggerDoc.FalsyPrimitiveUnenveloped | utils/generateSwaggerDoc.js:58 | `data` of `0`, `""` or `false` skips the primitive case and ends in the unenveloped fallback |
| SwaggerDoc.OperationObject | utils/generateSwaggerDoc.js:178-225 | the operation has exactly the keys summary, description, tags, security, parameters, requestBody and responses; security is the fixed bearer requirement |
| SwaggerDoc.ParameterList | utils/generateSwaggerDoc.js:184-195 | no parameters gives undefined; otherwise one mapped parameter per input, in order |
| SwaggerDoc.DocShape | utils/generateSwaggerDoc.js:176-228 | the fragment succeeds exactly when there is a method and the body and response schemas build; it then has one key, the path, holding one key, the lower-cased method |
| SwaggerDoc.OperationContents | utils/generateSwaggerDoc.js:179-224 | tags are an array, kept or wrapped; parameters are as mapped; `requestBody` is present exactly for a non-GET method with a non-empty body; the 200 response carries the response schema |
| SwaggerDoc.ResponsesFields | utils/generateSwaggerDoc.js:213-224 | responses have exactly the keys 200, 400 and 500, with the fixed 400 and 500 descriptions |
| SwaggerDoc.ParameterRules | utils/generateSwaggerDoc.js:186-194 | name and `in` are copied; description defaults to ""; `allowEmptyValue` is `!required` for query parameters and undefined otherwise |
| SwaggerDoc.ParameterSchemaLost | utils/generateSwaggerDoc.js:191 | an extracted parameter's schema reads as undefined in the operation |
| SwaggerDoc.ParameterSchemaKept | extractSchemas.js:107-115 | read from where extraction stores it, the parameter's schema is the transcoded field schema |
| LegacySwaggerDoc.LegacySchemaRules | generateSwaggerDoc.js:169-171 | an array parameter's schema is `{type: array, items: {type: itemsType or "string"}, example}`; any other is `{type, example, default}` |
| LegacySwaggerDoc.LegacyNestsExtracted | generateSwaggerDoc.js:169-171 | for an extracted parameter, the whole transcoded field schema lands under `schema.type` |
| LegacySwaggerDoc.LegacyMatchesUtils | generateSwaggerDoc.js:1-203 | the root duplicate fails exactly when the utils version does; it agrees on every operation key but `parameters`, and entirely when there are no parameters |
| RouteExtractor.FirstIndex | extractRoutes.js:184-199 | the search finds the first matching argument, or reports that none matches |
| RouteExtractor.RoutePathOf | extractRoutes.js:181 | a string first argument gives its templated value; a numeric or boolean one throws; a missing or non-literal one gives "" |
| RouteExtractor.SchemaReference | extractRoutes.js:184-194 | a schema reference exists exactly when the first `Validation.validate` call among the middlewares has a member-expression first argument, and it is then that first call's `Obj.Prop`; later validator calls are ignored |
| RouteExtractor.ControllerReference | extractRoutes.js:196-204 | a controller exists exactly when some middleware is a member expression on a `*Controller` object; it is the first such one, as `Obj.member` |
| RouteExtractor.TagIsFileStem | extractRoutes.js:223 | the tag is the file name with its first `.route.js` removed |
| RouteExtractor.RouteFileStem | extractRoutes.js:170 | for a dot-free stem, `stem.route.js` has prefix `/stem` and tag `stem` |
| RouteExtractor.RouteFileTag | extractRoutes.js:211 | the tag a resolved schema lookup uses for `stem.route.js` is the stem lower-cased, whatever the schema's module |
| RouteExtractor.DashboardUnprefixed | extractRoutes.js:206 | a route's full path is its bare route path exactly when the file is `dashboard.route.js` |
| RouteExtractor.DescriptorFields | extractRoutes.js:179-228 | the method is the property name verbatim; the path is prefixed except under `/dashboard`; description and summary default; the response schema is the override spread over the shared response, the override winning |
| RouteExtractor.VisitCallSite | extractRoutes.js:175-229 | the visitor yields exactly the descriptor `DescribeCall` |
| RouteExtractor.TraverseFile | extractRoutes.js:172-232 | the file's descriptors are appended to those collected so far, or the first error ends the run |
| RouteExtractor.DescribeSitesSpec | extractRoutes.js:172-232 | a file succeeds exactly when each of its router calls does; it then yields one descriptor per router call, in traversal order |
| RouteExtractor.RouteFiles | extractRoutes.js:157 | exactly the files whose names end in `.route.js` are kept |
| RouteExtractor.ParseRoutes | extractRoutes.js:157-235 | the loop over route files yields exactly `ParseRoutesOf` |
| RouteExtractor.ParseRoutesCount | extractRoutes.js:157-235 | there is one descriptor per router call in the route files |
| RouteExtractor.OnlyRouteFilesContribute | extractRoutes.js:157 | inserting a file not named `*.route.js` changes nothing |
| RouteExtractor.ValidatorAlwaysThrows | extractRoutes.js:210-214 | as written, any router call with a recognised schema reference throws |
| RouteExtractor.AsWrittenNoSchemas | extractRoutes.js:161-233 | as written, every descriptor of a successful run has schema "none", no request body and no parameters |
| RouteExtractor.ValidatorResolved | extractRoutes.js:210-214 | corrected, the call succeeds exactly when extraction does, and the descriptor carries the reference and the extracted body and parameters |
| RouteExtractor.BareCall | extractRoutes.js:216-227 | a router call without arguments is described, and its response schema is the shared response spread under the override of its full path |
| RouteExtractor.SharedResponseIgnored | extractRoutes.js:227 | with `responses = {"200": {responseData: d}}`, the response schema is `{}` as written but `d` corrected |
| Documentation.ShallowStep | core/generateDocumentation.js:18 | one `{ ...acc, ...doc }` step sets the fragment's path and leaves every other path as it was |
| Documentation.ShallowFold | core/generateDocumentation.js:16-19 | the folded keys are exactly the route paths; each path holds what the last route on it produced |
| Documentation.DocumentationOfNoRoutes | core/generateDocumentation.js:13-21 | with no route files the documentation is `{}` |
| Documentation.DocumentationPaths | core/generateDocumentation.js:13-21 | end to end, the `paths` keys are distinct and exactly the extracted route paths; each holds the last route's fragment |
| Documentation.EarlierMethodDropped | core/generateDocumentation.js:18 | of two routes on one path with different methods, the first method is absent from the result |
| Documentation.DeepStep | core/generateDocumentation.js:18 | a per-path merge adds the fragment's method and keeps the path's other methods and all other paths |
| Documentation.DeepFold | core/generateDocumentation.js:16-19 | merged per path, each path holds, under each method, the operation of the last route with that path and method |
| Documentation.BothMethodsKept | core/generateDocumentation.js:18 | merged per path, two routes on one path with different methods both keep their operations |
| Documentation.DocumentationFixedPaths | core/generateDocumentation.js:13-21 | the corrected pipeline end to end: keys are the route paths, and every (path, method) holds the last matching operation |

## Left out

- Reading the routes directory and files (`fs.readdirSync`, `fs.readFileSync`,
  `path.join`) is left out. The model takes a sequence of files in directory order,
  each a name with its call sites.
- Babel parsing and `traverse` are foreign code. The call sites of a file are given
  in traversal order as an abstract `CallSite`/`Expr` datatype. A file that fails
  to parse is out of scope.
- Joi's private layout (`_ids._byKey`, `_terms`, `_valids`, `_flags`) is replaced by
  the `SchemaNode` datatype. The keys of a Joi object are unique, so
  `SchemaTranscoder.ObjectTranscode`, `SchemaTranscoder.CollectKeysSpec`,
  `SchemaTranscoder.ExtractSections` and `SchemaTranscoder.SwaggerSchemaShape`
  require unique body keys.
- `new Date().toISOString()` is a parameter `now`.
- SchemaTranscoder.ScalarExampleTruthy assumes `now` is non-empty, because the model
  does not know the real timestamp string.
- `console.log(parameters)` is an output-only side effect.
- JavaScript numbers are integers here; floating point, `NaN` and `BigInt` are not
  modelled. `typeof` of functions, symbols and bigints is not modelled either.
- Objects keep insertion order. The JavaScript rule that integer-like keys are
  enumerated first, in ascending order, is not modelled.
- Property reads see own keys only; inherited prototype properties are not modelled.
- `toLowerCase` and `toUpperCase` are ASCII-only.
- A thrown `TypeError` is an `Err` carrying a message. The exact message text is not
  a property of the model.
- SchemaTranscoder.DescriptionFromKey: its contract states only that the description
  is non-empty and names the route tag. The four template texts and the generic
  "<Key> related to <tag>." are its definition and are not restated.
- Documentation.DocumentationOfNoRoutes: requires the response map not to be
  `null`, because reading `responses['200']` of `null` throws before any file is
  visited.
- core/swagger.js, which mounts the document on Express, is not part of this model.
- index.js, which re-exports the entry points, is not part of this model.

## Findings

| source | as written | input that shows it | evidently intended | confidence | as-written member | corrected member |
|---|---|---|---|---|---|---|
| extractRoutes.js:211 | `extractSwaggerSchema` is called with one object `{ schemas, schemaString, routePath }`, but it takes `(schemaString, schemas, routePath)` positionally, so `schemaString.split` throws on the object | `router.get('/:id', Validation.validate(UserSchema.getById), UserController.getById)` in `user.route.js` | pass the schema reference, the registry and the route path positionally | not executed | RouteExtractor.ValidatorAlwaysThrows | RouteExtractor.ValidatorResolved |
| utils/generateSwaggerDoc.js:191 | the operation reads `param.schema`, but extraction stores the transcoded field schema under `type` (extractSchemas.js:112), so every parameter's schema is undefined | once the schema lookup works: a `params` section with a required `id` field | read the transcoded schema from where extraction stores it | not executed | SwaggerDoc.ParameterSchemaLost | SwaggerDoc.ParameterSchemaKept |
| extractRoutes.js:227 | the shared default is read from `responses['200'].response`, while overrides use `responseData` | `responses = {"200": {responseData: {x: 1}}}` and `router.get()` in any route file: the response schema is `{}` | spread `responses['200'].responseData` under the per-path override | not executed | RouteExtractor.SharedResponseIgnored | RouteExtractor.DescriptorFields |
| core/generateDocumentation.js:18 | `{ ...acc, ...doc }` replaces a whole path, so a later route on the same path drops the earlier methods | `router.get('/')` and `router.post('/')` in `user.route.js`: only `post` remains under `/user/` | merge each fragment's methods into the path's existing operations | not executed | Documentation.EarlierMethodDropped | Documentation.BothMethodsKept |
