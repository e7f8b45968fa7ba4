/** The route extractor of extractRoutes.js: every `router.<method>(path, ...)` call
    in every `*.route.js` file becomes one route descriptor, carrying the prefixed
    and templated path, the validator's schema reference, the controller reference,
    the extracted request body and parameters, and the user's response overrides.

    Reading the directory and the files and parsing them are not modelled: a file is
    its name and the call expressions the parser's walk visits, in visiting order. */
module RouteExtractor {
  import opened Text
  import opened Json
  import PathTemplate
  import SchemaTranscoder
  import SwaggerDoc

  // ---------------------------------------------------------------------------
  // The syntax the extractor inspects

  /** The parts of a parsed expression the extractor reads. */
  datatype Expr =
    | Identifier(name: string)
    | MemberExpr(obj: Expr, property: Expr)
    | CallExpr(callee: Expr, arguments: seq<Expr>)
    | StringLit(text: string)
    | NumericLit(number: int)
    | BooleanLit(truth: bool)
    | OtherNode

  /** A call expression visited by the walk. */
  datatype CallSite = CallSite(callee: Expr, arguments: seq<Expr>)

  datatype SourceFile = SourceFile(name: string, callSites: seq<CallSite>)

  /** One entry of the list the extractor returns. */
  datatype RouteDescriptor = RouteDescriptor(route: SwaggerDoc.Route, schema: string, controller: string)

  /** `node.name`: only identifiers have one. */
  function NameOf(e: Expr): Option<string> {
    if e.Identifier? then Some(e.name) else None
  }

  /** `node.name` written into a template string. */
  function NameText(e: Expr): string {
    match NameOf(e)
    case Some(n) => n
    case None => "undefined"
  }

  /** `router.<anything>(...)` */
  predicate IsRouterCall(site: CallSite) {
    site.callee.MemberExpr? && NameOf(site.callee.obj) == Some("router")
  }

  /** `Validation.validate(...)` */
  predicate IsValidatorCall(e: Expr) {
    e.CallExpr? && e.callee.MemberExpr?
    && NameOf(e.callee.obj) == Some("Validation") && NameOf(e.callee.property) == Some("validate")
  }

  /** `<Something>Controller.<member>` */
  predicate IsControllerRef(e: Expr) {
    e.MemberExpr? && NameOf(e.obj).Some? && EndsWith(NameOf(e.obj).value, "Controller")
  }

  /** `Array.prototype.find`, as an index: the first element satisfying `p`. */
  function FirstIndex(es: seq<Expr>, p: Expr -> bool): (r: Option<nat>)
    ensures r.Some? ==> r.value < |es| && p(es[r.value]) && forall j :: 0 <= j < r.value ==> !p(es[j])
    ensures r.None? ==> forall j :: 0 <= j < |es| ==> !p(es[j])
  {
    if es == [] then None
    else if p(es[0]) then Some(0)
    else match FirstIndex(es[1..], p)
      case None => None
      case Some(i) => Some(i + 1)
  }

  /** `args.slice(1)` */
  function Middlewares(args: seq<Expr>): seq<Expr> {
    if args == [] then [] else args[1..]
  }

  /** The route path: the templated value of a string literal first argument, the
      empty string when the first argument is missing or has no `value`, and a
      TypeError for a number or boolean literal, which has no `split`. */
  function RoutePathOf(args: seq<Expr>): (r: Result<string>)
    ensures args != [] && args[0].StringLit? ==> r == Ok(PathTemplate.TransformRoutePath(Some(args[0].text)))
    ensures args != [] && (args[0].NumericLit? || args[0].BooleanLit?) ==> r.Err?
    ensures (args == [] || !(args[0].StringLit? || args[0].NumericLit? || args[0].BooleanLit?)) ==> r == Ok("")
  {
    if args == [] then Ok(PathTemplate.TransformRoutePath(None))
    else match args[0]
      case StringLit(s) => Ok(PathTemplate.TransformRoutePath(Some(s)))
      case NumericLit(_) => Err(TypeError("routePath?.split is not a function"))
      case BooleanLit(_) => Err(TypeError("routePath?.split is not a function"))
      case _ => Ok(PathTemplate.TransformRoutePath(None))
  }

  /** `"Module.Schema"` from the first `Validation.validate(...)` middleware, when its
      first argument is a member expression. */
  function SchemaRefOf(middlewares: seq<Expr>): Option<string> {
    match FirstIndex(middlewares, IsValidatorCall)
    case None => None
    case Some(i) =>
      var args := middlewares[i].arguments;
      if args != [] && args[0].MemberExpr? then Some(NameText(args[0].obj) + "." + NameText(args[0].property))
      else None
  }

  /** `"XController.member"` from the first controller reference among the middlewares. */
  function ControllerRefOf(middlewares: seq<Expr>): Option<string> {
    match FirstIndex(middlewares, IsControllerRef)
    case None => None
    case Some(i) => Some(NameOf(middlewares[i].obj).value + "." + NameText(middlewares[i].property))
  }

  /** `'/' + file.replace('.route.js', '')` */
  function Prefix(fileName: string): string {
    "/" + ReplaceFirst(fileName, ".route.js", "")
  }

  /** Routes of the dashboard file are mounted at the root. */
  function FullPath(prefix: string, routePath: string): string {
    if prefix == "/dashboard" then routePath else prefix + routePath
  }

  /** `prefix.replace('/', '')` */
  function Tag(prefix: string): string {
    ReplaceFirst(prefix, "/", "")
  }

  // ---------------------------------------------------------------------------
  // The two wirings: as written, and with the schema lookup and the shared
  // response corrected

  datatype Wiring = AsWritten | Corrected

  /** Calling `extractSwaggerSchema` with one object puts that object where the
      schema string is expected, and splitting it throws. */
  const SplitOfNonString := TypeError("schemaString.split is not a function")

  function SchemaLookup(schema: string, schemas: SchemaTranscoder.Registry, prefix: string, now: string,
                        wiring: Wiring): Result<SchemaTranscoder.Extracted> {
    match wiring
    case AsWritten => Err(SplitOfNonString)
    case Corrected => SchemaTranscoder.SwaggerSchemaOf(schema, schemas, prefix, now)
  }

  /** The shared part of every response schema, read from the `200` entry. */
  function SharedResponse(commonRes: JsValue, wiring: Wiring): JsValue {
    match wiring
    case AsWritten => Get(commonRes, "response")
    case Corrected => Get(commonRes, "responseData")
  }

  /** What stays the same across all call sites of one extraction. */
  datatype Env = Env(schemas: SchemaTranscoder.Registry, responses: JsValue, commonRes: JsValue, now: string, wiring: Wiring)

  /** `responses['200'] || {}`; reading it from `null` throws. */
  function CommonResponse(responses: JsValue): Result<JsValue> {
    if responses == Null then Err(SwaggerDoc.ReadOfNullish(responses, "200"))
    else Ok(Or(Get(responses, "200"), Obj([])))
  }

  // ---------------------------------------------------------------------------
  // One call site

  /** The descriptor of one `router` call, or the error its construction throws. */
  function DescribeCall(site: CallSite, prefix: string, env: Env): Result<RouteDescriptor>
    requires IsRouterCall(site)
  {
    var routePath :- RoutePathOf(site.arguments);
    var middlewares := Middlewares(site.arguments);
    var schema := SchemaRefOf(middlewares);
    var controller := ControllerRefOf(middlewares);
    var fullPath := FullPath(prefix, routePath);
    var extracted :- if schema.Some? then SchemaLookup(schema.value, env.schemas, prefix, env.now, env.wiring)
                     else Ok(SchemaTranscoder.Extracted([], []));
    var resObj := Or(Get(env.responses, fullPath), Obj([]));
    Ok(RouteDescriptor(
         SwaggerDoc.Route(
           fullPath,
           NameOf(site.callee.property),
           Or(Get(resObj, "summary"), Str("No summary available")),
           Or(Get(resObj, "description"), Str("No description available")),
           Str(Tag(prefix)),
           extracted.parameters,
           extracted.requestBodySchema,
           Obj(SpreadMerge(SharedResponse(env.commonRes, env.wiring), Get(resObj, "responseData")))),
         if schema.Some? then schema.value else "none",
         if controller.Some? then controller.value else "unknown"))
  }

  /** The visitor body for one `router` call. */
  method VisitCallSite(site: CallSite, prefix: string, env: Env) returns (r: Result<RouteDescriptor>)
    requires IsRouterCall(site)
    ensures r == DescribeCall(site, prefix, env)
  {
    var httpMethod := NameOf(site.callee.property);
    var args := site.arguments;
    var routePath :- RoutePathOf(args);
    var middlewares := Middlewares(args);

    var schema: Option<string> := None;
    var schemaArg := FirstIndex(middlewares, IsValidatorCall);
    if schemaArg.Some? {
      var validatorArgs := middlewares[schemaArg.value].arguments;
      if validatorArgs != [] && validatorArgs[0].MemberExpr? {
        schema := Some(NameText(validatorArgs[0].obj) + "." + NameText(validatorArgs[0].property));
      }
    }

    var controller: Option<string> := None;
    var controllerArg := FirstIndex(middlewares, IsControllerRef);
    if controllerArg.Some? {
      var ref := middlewares[controllerArg.value];
      controller := Some(NameOf(ref.obj).value + "." + NameText(ref.property));
    }

    var fullPath := FullPath(prefix, routePath);
    var requestBodySchema: Fields := [];
    var parameters: seq<Fields> := [];
    if schema.Some? {
      var extracted :- SchemaLookup(schema.value, env.schemas, prefix, env.now, env.wiring);
      requestBodySchema := extracted.requestBodySchema;
      parameters := extracted.parameters;
    }

    var resObj := Or(Get(env.responses, fullPath), Obj([]));
    var route := SwaggerDoc.Route(
      fullPath, httpMethod,
      Or(Get(resObj, "summary"), Str("No summary available")),
      Or(Get(resObj, "description"), Str("No description available")),
      Str(Tag(prefix)),
      parameters, requestBodySchema,
      Obj(SpreadMerge(SharedResponse(env.commonRes, env.wiring), Get(resObj, "responseData"))));
    r := Ok(RouteDescriptor(route, if schema.Some? then schema.value else "none",
                            if controller.Some? then controller.value else "unknown"));
  }

  // ---------------------------------------------------------------------------
  // All files

  /** The descriptors of one file's call sites, in visiting order; the first error
      stops the walk. */
  function DescribeSites(sites: seq<CallSite>, prefix: string, env: Env): Result<seq<RouteDescriptor>>
    decreases |sites|
  {
    if sites == [] then Ok([])
    else
      var before :- DescribeSites(sites[..|sites| - 1], prefix, env);
      var site := sites[|sites| - 1];
      if IsRouterCall(site) then
        var d :- DescribeCall(site, prefix, env);
        Ok(before + [d])
      else Ok(before)
  }

  /** The descriptors of the given files, file after file. */
  function DescribeFiles(files: seq<SourceFile>, env: Env): Result<seq<RouteDescriptor>>
    decreases |files|
  {
    if files == [] then Ok([])
    else
      var before :- DescribeFiles(files[..|files| - 1], env);
      var file := files[|files| - 1];
      var ds :- DescribeSites(file.callSites, Prefix(file.name), env);
      Ok(before + ds)
  }

  /** The files whose names end in `.route.js`, in directory order. */
  function RouteFiles(files: seq<SourceFile>): (r: seq<SourceFile>)
    ensures forall f :: f in r <==> f in files && EndsWith(f.name, ".route.js")
    ensures |r| <= |files|
  {
    if files == [] then []
    else
      var before := RouteFiles(files[..|files| - 1]);
      assert files == files[..|files| - 1] + [files[|files| - 1]];
      if EndsWith(files[|files| - 1].name, ".route.js") then before + [files[|files| - 1]] else before
  }

  /** `parseRoutes({ routesDir, schemas, responses })` with the directory's files given. */
  function ParseRoutesOf(files: seq<SourceFile>, schemas: SchemaTranscoder.Registry, responses: JsValue,
                         now: string, wiring: Wiring): Result<seq<RouteDescriptor>>
  {
    var commonRes :- CommonResponse(responses);
    DescribeFiles(RouteFiles(files), Env(schemas, responses, commonRes, now, wiring))
  }

  /** `parseRoutes`: the descriptors accumulate in one list across all route files. */
  method ParseRoutes(files: seq<SourceFile>, schemas: SchemaTranscoder.Registry, responses: JsValue,
                     now: string, wiring: Wiring) returns (r: Result<seq<RouteDescriptor>>)
    ensures r == ParseRoutesOf(files, schemas, responses, now, wiring)
  {
    var routeFiles := RouteFiles(files);
    var allRoutes: seq<RouteDescriptor> := [];
    var commonRes :- CommonResponse(responses);
    var env := Env(schemas, responses, commonRes, now, wiring);

    for f := 0 to |routeFiles|
      invariant DescribeFiles(routeFiles[..f], env) == Ok(allRoutes)
    {
      var file := routeFiles[f];
      var visited := TraverseFile(file, "/" + ReplaceFirst(file.name, ".route.js", ""), env, allRoutes);
      if visited.Err? {
        FilesErrorStays(routeFiles, f + 1, env, visited.error);
        return Err(visited.error);
      }
      FilesStep(routeFiles, f, env);
      allRoutes := visited.value;
    }
    assert routeFiles[..|routeFiles|] == routeFiles;
    return Ok(allRoutes);
  }

  /** The walk over one file: each `router` call's descriptor is pushed onto
      `allRoutes`, and the first error thrown ends the walk. */
  method TraverseFile(file: SourceFile, prefix: string, env: Env, allRoutes: seq<RouteDescriptor>)
    returns (r: Result<seq<RouteDescriptor>>)
    ensures var described := DescribeSites(file.callSites, prefix, env);
      && (described.Ok? ==> r == Ok(allRoutes + described.value))
      && (described.Err? ==> r == Err(described.error))
  {
    var pushed := allRoutes;
    for c := 0 to |file.callSites|
      invariant DescribeSites(file.callSites[..c], prefix, env).Ok?
      invariant pushed == allRoutes + DescribeSites(file.callSites[..c], prefix, env).value
    {
      var site := file.callSites[c];
      SitesStep(file.callSites, c, prefix, env);
      if IsRouterCall(site) {
        var d := VisitCallSite(site, prefix, env);
        if d.Err? {
          SitesErrorStays(file.callSites, c + 1, prefix, env);
          return Err(d.error);
        }
        pushed := pushed + [d.value];
      }
    }
    assert file.callSites[..|file.callSites|] == file.callSites;
    return Ok(pushed);
  }

  /** One more call site: a `router` call appends its descriptor or ends the walk
      with its error; any other call leaves the walk as it was. */
  lemma SitesStep(sites: seq<CallSite>, c: nat, prefix: string, env: Env)
    requires c < |sites| && DescribeSites(sites[..c], prefix, env).Ok?
    ensures IsRouterCall(sites[c]) && DescribeCall(sites[c], prefix, env).Ok? ==>
      DescribeSites(sites[..c + 1], prefix, env) ==
        Ok(DescribeSites(sites[..c], prefix, env).value + [DescribeCall(sites[c], prefix, env).value])
    ensures IsRouterCall(sites[c]) && DescribeCall(sites[c], prefix, env).Err? ==>
      DescribeSites(sites[..c + 1], prefix, env) == Err(DescribeCall(sites[c], prefix, env).error)
    ensures !IsRouterCall(sites[c]) ==> DescribeSites(sites[..c + 1], prefix, env) == DescribeSites(sites[..c], prefix, env)
  {
    assert sites[..c + 1][..c] == sites[..c];
  }

  /** One more file appends its descriptors. */
  lemma FilesStep(files: seq<SourceFile>, f: nat, env: Env)
    requires f < |files| && DescribeFiles(files[..f], env).Ok?
    requires DescribeSites(files[f].callSites, Prefix(files[f].name), env).Ok?
    ensures DescribeFiles(files[..f + 1], env) ==
            Ok(DescribeFiles(files[..f], env).value + DescribeSites(files[f].callSites, Prefix(files[f].name), env).value)
  {
    assert files[..f + 1][..f] == files[..f];
  }

  /** Once a prefix of a file's call sites fails, the whole file fails the same way. */
  lemma {:induction false} SitesErrorStays(sites: seq<CallSite>, c: nat, prefix: string, env: Env)
    requires c <= |sites| && DescribeSites(sites[..c], prefix, env).Err?
    ensures DescribeSites(sites, prefix, env) == DescribeSites(sites[..c], prefix, env)
    decreases |sites|
  {
    if c < |sites| {
      assert sites[..|sites| - 1][..c] == sites[..c];
      SitesErrorStays(sites[..|sites| - 1], c, prefix, env);
    } else {
      assert sites[..c] == sites;
    }
  }

  /** Once the files up to `f` fail with `e`, all the files fail with `e`. */
  lemma {:induction false} FilesErrorStays(files: seq<SourceFile>, f: nat, env: Env, e: JsError)
    requires 0 < f <= |files|
    requires DescribeFiles(files[..f - 1], env).Ok?
    requires DescribeSites(files[f - 1].callSites, Prefix(files[f - 1].name), env) == Err(e)
    ensures DescribeFiles(files, env) == Err(e)
    decreases |files|
  {
    if f < |files| {
      assert files[..|files| - 1][..f - 1] == files[..f - 1];
      assert files[..|files| - 1][f - 1] == files[f - 1];
      FilesErrorStays(files[..|files| - 1], f, env, e);
    } else {
      assert files[..f - 1] == files[..|files| - 1];
    }
  }

  // ---------------------------------------------------------------------------
  // What extraction produces, stated directly

  /** The `router` calls among the call sites, in visiting order. */
  function RouterCalls(sites: seq<CallSite>): (r: seq<CallSite>)
    ensures forall i :: 0 <= i < |r| ==> IsRouterCall(r[i])
    ensures |r| <= |sites|
    decreases |sites|
  {
    if sites == [] then []
    else
      var before := RouterCalls(sites[..|sites| - 1]);
      if IsRouterCall(sites[|sites| - 1]) then before + [sites[|sites| - 1]] else before
  }

  predicate DescribesOk(calls: seq<CallSite>, i: int, prefix: string, env: Env) {
    0 <= i < |calls| && IsRouterCall(calls[i]) && DescribeCall(calls[i], prefix, env).Ok?
  }

  function Described(calls: seq<CallSite>, i: int, prefix: string, env: Env): RouteDescriptor
    requires DescribesOk(calls, i, prefix, env)
  {
    DescribeCall(calls[i], prefix, env).value
  }

  /** A file's walk succeeds exactly when every `router` call in it can be described,
      and then yields one descriptor per `router` call, in visiting order. */
  lemma {:induction false} DescribeSitesSpec(sites: seq<CallSite>, prefix: string, env: Env)
    ensures DescribeSites(sites, prefix, env).Ok? <==>
      forall i :: 0 <= i < |RouterCalls(sites)| ==> DescribesOk(RouterCalls(sites), i, prefix, env)
    ensures DescribeSites(sites, prefix, env).Ok? ==>
      && |DescribeSites(sites, prefix, env).value| == |RouterCalls(sites)|
      && forall i :: 0 <= i < |RouterCalls(sites)| ==>
           DescribeSites(sites, prefix, env).value[i] == Described(RouterCalls(sites), i, prefix, env)
    decreases |sites|
  {
    if sites != [] {
      var init := sites[..|sites| - 1];
      var site := sites[|sites| - 1];
      DescribeSitesSpec(init, prefix, env);
      SitesSnoc(sites, prefix, env);
      SitesInduct(RouterCalls(init), RouterCalls(sites), site, prefix, env,
                  DescribeSites(init, prefix, env), DescribeSites(sites, prefix, env));
    }
  }

  /** One step of the walk and of `RouterCalls`, unfolded. */
  lemma SitesSnoc(sites: seq<CallSite>, prefix: string, env: Env)
    requires sites != []
    ensures var init := sites[..|sites| - 1];
      var site := sites[|sites| - 1];
      var done := DescribeSites(init, prefix, env);
      var next := DescribeSites(sites, prefix, env);
      && RouterCalls(sites) == (if IsRouterCall(site) then RouterCalls(init) + [site] else RouterCalls(init))
      && (done.Err? ==> next.Err?)
      && (done.Ok? && !IsRouterCall(site) ==> next == done)
      && (done.Ok? && IsRouterCall(site) && DescribeCall(site, prefix, env).Err? ==> next.Err?)
      && (done.Ok? && IsRouterCall(site) && DescribeCall(site, prefix, env).Ok? ==>
            next == Ok(done.value + [DescribeCall(site, prefix, env).value]))
  {
  }

  /** The inductive step of `DescribeSitesSpec`, on plain values. */
  lemma SitesInduct(before: seq<CallSite>, calls: seq<CallSite>, site: CallSite, prefix: string, env: Env,
                    done: Result<seq<RouteDescriptor>>, next: Result<seq<RouteDescriptor>>)
    requires calls == if IsRouterCall(site) then before + [site] else before
    requires done.Ok? <==> forall i :: 0 <= i < |before| ==> DescribesOk(before, i, prefix, env)
    requires done.Ok? ==>
      && |done.value| == |before|
      && forall i :: 0 <= i < |before| ==> done.value[i] == Described(before, i, prefix, env)
    requires done.Err? ==> next.Err?
    requires done.Ok? && !IsRouterCall(site) ==> next == done
    requires done.Ok? && IsRouterCall(site) && DescribeCall(site, prefix, env).Err? ==> next.Err?
    requires done.Ok? && IsRouterCall(site) && DescribeCall(site, prefix, env).Ok? ==>
      next == Ok(done.value + [DescribeCall(site, prefix, env).value])
    ensures next.Ok? <==> forall i :: 0 <= i < |calls| ==> DescribesOk(calls, i, prefix, env)
    ensures next.Ok? ==>
      && |next.value| == |calls|
      && forall i :: 0 <= i < |calls| ==> next.value[i] == Described(calls, i, prefix, env)
  {
    assert forall i :: 0 <= i < |before| ==> calls[i] == before[i];
    if done.Err? {
      var i :| 0 <= i < |before| && !DescribesOk(before, i, prefix, env);
      assert calls[i] == before[i];
      assert !DescribesOk(calls, i, prefix, env);
    } else {
      forall i | 0 <= i < |before|
        ensures DescribesOk(calls, i, prefix, env)
        ensures Described(calls, i, prefix, env) == done.value[i]
      {
        assert calls[i] == before[i];
        assert DescribesOk(before, i, prefix, env);
      }
      if IsRouterCall(site) && DescribeCall(site, prefix, env).Err? {
        assert !DescribesOk(calls, |calls| - 1, prefix, env);
      }
    }
  }

  /** The number of `router` calls in the given files. */
  function RouterCallCount(files: seq<SourceFile>): nat
    decreases |files|
  {
    if files == [] then 0
    else RouterCallCount(files[..|files| - 1]) + |RouterCalls(files[|files| - 1].callSites)|
  }

  /** One descriptor per `router` call of the route files. */
  lemma {:induction false} DescribeFilesCount(files: seq<SourceFile>, env: Env)
    requires DescribeFiles(files, env).Ok?
    ensures |DescribeFiles(files, env).value| == RouterCallCount(files)
    decreases |files|
  {
    if files != [] {
      var file := files[|files| - 1];
      DescribeFilesCount(files[..|files| - 1], env);
      DescribeSitesSpec(file.callSites, Prefix(file.name), env);
    }
  }

  /** A successful extraction yields exactly one descriptor per `router` call in the
      files whose names end in `.route.js`. */
  lemma ParseRoutesCount(files: seq<SourceFile>, schemas: SchemaTranscoder.Registry, responses: JsValue,
                         now: string, wiring: Wiring)
    requires ParseRoutesOf(files, schemas, responses, now, wiring).Ok?
    ensures |ParseRoutesOf(files, schemas, responses, now, wiring).value| == RouterCallCount(RouteFiles(files))
  {
    var commonRes := CommonResponse(responses).value;
    DescribeFilesCount(RouteFiles(files), Env(schemas, responses, commonRes, now, wiring));
  }

  lemma {:induction false} RouteFilesConcat(a: seq<SourceFile>, b: seq<SourceFile>)
    ensures RouteFiles(a + b) == RouteFiles(a) + RouteFiles(b)
    decreases |b|
  {
    if b == [] {
      assert a + b == a;
    } else {
      assert (a + b)[..|a + b| - 1] == a + b[..|b| - 1];
      RouteFilesConcat(a, b[..|b| - 1]);
    }
  }

  /** A file whose name does not end in `.route.js` contributes nothing, wherever it
      stands in the directory listing. */
  lemma OnlyRouteFilesContribute(a: seq<SourceFile>, other: SourceFile, b: seq<SourceFile>,
                                 schemas: SchemaTranscoder.Registry, responses: JsValue, now: string, wiring: Wiring)
    requires !EndsWith(other.name, ".route.js")
    ensures ParseRoutesOf(a + [other] + b, schemas, responses, now, wiring) == ParseRoutesOf(a + b, schemas, responses, now, wiring)
  {
    RouteFilesConcat(a + [other], b);
    RouteFilesConcat(a, [other]);
    RouteFilesConcat(a, b);
    assert RouteFiles([other]) == [] by {
      assert [other][..0] == [];
    }
  }

  /** The schema reference is found exactly when the first `Validation.validate`
      middleware takes a member expression first; it is then `"<object>.<property>"`. */
  lemma SchemaReference(middlewares: seq<Expr>)
    ensures SchemaRefOf(middlewares).Some? <==>
      exists i :: 0 <= i < |middlewares| && IsValidatorCall(middlewares[i])
                  && (forall j :: 0 <= j < i ==> !IsValidatorCall(middlewares[j]))
                  && middlewares[i].arguments != [] && middlewares[i].arguments[0].MemberExpr?
    ensures SchemaRefOf(middlewares).Some? ==>
      exists i :: 0 <= i < |middlewares| && IsValidatorCall(middlewares[i])
                  && (forall j :: 0 <= j < i ==> !IsValidatorCall(middlewares[j]))
                  && middlewares[i].arguments != [] && middlewares[i].arguments[0].MemberExpr?
                  && SchemaRefOf(middlewares).value ==
                     NameText(middlewares[i].arguments[0].obj) + "." + NameText(middlewares[i].arguments[0].property)
  {
    var found := FirstIndex(middlewares, IsValidatorCall);
    if found.Some? {
      var i := found.value;
      forall k | 0 <= k < |middlewares| && IsValidatorCall(middlewares[k])
                 && (forall j :: 0 <= j < k ==> !IsValidatorCall(middlewares[j]))
        ensures k == i
      {
      }
    }
  }

  /** A controller is named exactly when some middleware is a `...Controller.member`
      reference; the first one gives `"<XController>.<member>"`. */
  lemma ControllerReference(middlewares: seq<Expr>)
    ensures ControllerRefOf(middlewares).Some? <==> exists i :: 0 <= i < |middlewares| && IsControllerRef(middlewares[i])
    ensures ControllerRefOf(middlewares).Some? ==>
      exists i :: 0 <= i < |middlewares| && IsControllerRef(middlewares[i])
                  && (forall j :: 0 <= j < i ==> !IsControllerRef(middlewares[j]))
                  && ControllerRefOf(middlewares).value ==
                     middlewares[i].obj.name + "." + NameText(middlewares[i].property)
  {
    var found := FirstIndex(middlewares, IsControllerRef);
    if found.None? {
      assert forall j :: 0 <= j < |middlewares| ==> !IsControllerRef(middlewares[j]);
    }
  }

  /** The tag is the file name with its first `.route.js` removed. */
  lemma TagIsFileStem(fileName: string)
    ensures Tag(Prefix(fileName)) == ReplaceFirst(fileName, ".route.js", "")
  {
    var p := Prefix(fileName);
    assert p[0..1] == "/";
    assert IndexOf(p, "/", 0) == 0;
  }

  /** `<stem>.route.js`, for a stem without a dot, gives the prefix `/<stem>` and
      the tag `<stem>` (`user.route.js` gives `/user` and `user`). */
  lemma RouteFileStem(stem: string)
    requires Free(stem, '.')
    ensures Prefix(stem + ".route.js") == "/" + stem
    ensures Tag(Prefix(stem + ".route.js")) == stem
  {
    var s := stem + ".route.js";
    assert s[|stem|..|stem| + 9] == ".route.js";
    assert forall j :: 0 <= j < |stem| ==> s[j] == stem[j];
    IndexOfFirstChar(s, ".route.js", 0, |stem|);
    assert s[..|stem|] == stem && s[|stem| + 9..] == "";
    assert s[..|stem|] + "" + s[|stem| + 9..] == stem;
    TagIsFileStem(s);
  }

    /** The description tag a corrected schema lookup uses for `stem.route.js` is the
      stem lower-cased, whatever the schema's module. */
  lemma RouteFileTag(stem: string, moduleName: string)
    requires stem != "" && Free(stem, '.') && Free(stem, '/')
    ensures SchemaTranscoder.RouteTag(Prefix(stem + ".route.js"), moduleName) == ToLower(stem)
  {
    RouteFileStem(stem);
    SchemaTranscoder.RouteTagOfPrefix(stem, moduleName);
  }

/** Routes of a route file keep their own path, without a prefix, exactly when
      the file is `dashboard.route.js`. */
  lemma DashboardUnprefixed(stem: string, routePath: string)
    requires Free(stem, '.')
    ensures FullPath(Prefix(stem + ".route.js"), routePath) == routePath <==> stem == "dashboard"
  {
    RouteFileStem(stem);
    assert "/" + stem == "/dashboard" <==> stem == "dashboard" by {
      if "/" + stem == "/dashboard" {
        assert stem == ("/" + stem)[1..];
      }
    }
  }

  /** The descriptor of a `router` call: the method is the property name, the path
      is prefixed unless the file is the dashboard one, the tag comes from the
      prefix, the description and summary fall back to fixed texts, and the response
      schema is the shared response overlaid by the path's own `responseData`, the
      override winning on shared keys. */
  lemma DescriptorFields(site: CallSite, prefix: string, env: Env, q: string)
    requires IsRouterCall(site) && DescribeCall(site, prefix, env).Ok?
    ensures var d := DescribeCall(site, prefix, env).value.route;
      var routePath := RoutePathOf(site.arguments).value;
      var resObj := Or(Get(env.responses, d.path), Obj([]));
      var override := Get(resObj, "responseData");
      var shared := SharedResponse(env.commonRes, env.wiring);
      && RoutePathOf(site.arguments).Ok?
      && d.httpMethod == NameOf(site.callee.property)
      && (prefix == "/dashboard" ==> d.path == routePath)
      && (prefix != "/dashboard" ==> d.path == prefix + routePath)
      && d.tags == Str(Tag(prefix))
      && (Truthy(Get(resObj, "description")) ==> d.description == Get(resObj, "description"))
      && (!Truthy(Get(resObj, "description")) ==> d.description == Str("No description available"))
      && (Truthy(Get(resObj, "summary")) ==> d.summary == Get(resObj, "summary"))
      && (!Truthy(Get(resObj, "summary")) ==> d.summary == Str("No summary available"))
      && d.responseSchema.Obj?
      && Lookup(d.responseSchema.fields, q) ==
           (if HasKey(Spread(override), q) then LastValue(Spread(override), q)
            else if HasKey(Spread(shared), q) then LastValue(Spread(shared), q)
            else Undefined)
  {
    var d := DescribeCall(site, prefix, env).value.route;
    var resObj := Or(Get(env.responses, d.path), Obj([]));
    SpreadMergeLookup(SharedResponse(env.commonRes, env.wiring), Get(resObj, "responseData"), q);
  }

  /** As written, a route with a recognised validator can never be described:
      extraction throws as soon as the schema reference is found. */
  lemma ValidatorAlwaysThrows(site: CallSite, prefix: string, env: Env)
    requires IsRouterCall(site) && env.wiring == AsWritten
    requires RoutePathOf(site.arguments).Ok? && SchemaRefOf(Middlewares(site.arguments)).Some?
    ensures DescribeCall(site, prefix, env) == Err(SplitOfNonString)
  {
  }

  /** As written, every route that is described has no schema, no request body and no
      parameters. */
  lemma AsWrittenDescriptor(site: CallSite, prefix: string, env: Env)
    requires IsRouterCall(site) && env.wiring == AsWritten && DescribeCall(site, prefix, env).Ok?
    ensures var d := DescribeCall(site, prefix, env).value;
      d.schema == "none" && d.route.requestBodySchema == [] && d.route.parameters == []
  {
  }

  /** As written, a successful extraction describes no request body and no parameter
      anywhere. */
  lemma {:induction false} AsWrittenNoSchemas(files: seq<SourceFile>, env: Env)
    requires env.wiring == AsWritten && DescribeFiles(files, env).Ok?
    ensures forall k :: 0 <= k < |DescribeFiles(files, env).value| ==>
      var d := DescribeFiles(files, env).value[k];
      d.schema == "none" && d.route.requestBodySchema == [] && d.route.parameters == []
    decreases |files|
  {
    if files != [] {
      var file := files[|files| - 1];
      var prefix := Prefix(file.name);
      AsWrittenNoSchemas(files[..|files| - 1], env);
      DescribeSitesSpec(file.callSites, prefix, env);
      var calls := RouterCalls(file.callSites);
      forall i | 0 <= i < |calls|
        ensures var d := Described(calls, i, prefix, env);
          d.schema == "none" && d.route.requestBodySchema == [] && d.route.parameters == []
      {
        AsWrittenDescriptor(calls[i], prefix, env);
      }
    }
  }

  /** Corrected, a recognised validator's schema is looked up in the registry with the
      file's prefix as the route path, and its body and parameters are carried over. */
  lemma ValidatorResolved(site: CallSite, prefix: string, env: Env)
    requires IsRouterCall(site) && env.wiring == Corrected
    requires RoutePathOf(site.arguments).Ok? && SchemaRefOf(Middlewares(site.arguments)).Some?
    ensures var ref := SchemaRefOf(Middlewares(site.arguments)).value;
      var extracted := SchemaTranscoder.SwaggerSchemaOf(ref, env.schemas, prefix, env.now);
      var r := DescribeCall(site, prefix, env);
      && (r.Ok? <==> extracted.Ok?)
      && (r.Ok? ==> && r.value.schema == ref
                    && r.value.route.requestBodySchema == extracted.value.requestBodySchema
                    && r.value.route.parameters == extracted.value.parameters)
  {
  }

  /** As written, a `responseData` given under the `200` entry never reaches a route:
      with responses `{"200": {responseData: data}}` and a non-empty `data`, a
      `router` call without arguments in any route file gets an empty response schema,
      where the corrected wiring gives it `data`. */
  lemma SharedResponseIgnored(site: CallSite, fileName: string, data: Fields, now: string)
    requires IsRouterCall(site) && site.arguments == []
    requires data != [] && DistinctKeys(data)
    ensures var responses := Obj([("200", Obj([("responseData", Obj(data))]))]);
      var commonRes := CommonResponse(responses).value;
      var asWritten := DescribeCall(site, Prefix(fileName), Env(map[], responses, commonRes, now, AsWritten));
      var corrected := DescribeCall(site, Prefix(fileName), Env(map[], responses, commonRes, now, Corrected));
      && asWritten.Ok? && asWritten.value.route.responseSchema == Obj([])
      && corrected.Ok? && corrected.value.route.responseSchema == Obj(data)
      && asWritten.value.route.responseSchema != corrected.value.route.responseSchema
  {
    var responses := Obj([("200", Obj([("responseData", Obj(data))]))]);
    var commonRes := CommonResponse(responses).value;
    assert commonRes == Obj([("responseData", Obj(data))]);
    var prefix := Prefix(fileName);
    assert prefix[0] == '/';
    var fullPath := FullPath(prefix, "");
    assert fullPath == "" || fullPath[0] == '/';
    assert responses.fields[0].0 != fullPath by {
      if fullPath != "" {
        assert "200"[0] == '2';
      }
    }
    assert Lookup(responses.fields[1..], fullPath) == Undefined;
    assert Get(Or(Get(responses, fullPath), Obj([])), "responseData") == Undefined;
    BareCall(site, prefix, Env(map[], responses, commonRes, now, AsWritten));
    BareCall(site, prefix, Env(map[], responses, commonRes, now, Corrected));
    assert |"responseData"| != |"response"|;
    assert commonRes.fields[0].0 != "response";
    assert Lookup(commonRes.fields[1..], "response") == Undefined;
    assert SharedResponse(commonRes, AsWritten) == Undefined;
    assert SharedResponse(commonRes, Corrected) == Obj(data);
    assert [] + data == data;
    AssignAllFresh([], data);
  }

  /** A `router` call without arguments: the path is the prefix alone, and the
      response schema is the shared response overlaid by that path's `responseData`. */
  lemma BareCall(site: CallSite, prefix: string, env: Env)
    requires IsRouterCall(site) && site.arguments == []
    ensures DescribeCall(site, prefix, env).Ok?
    ensures DescribeCall(site, prefix, env).value.route.responseSchema ==
      Obj(SpreadMerge(SharedResponse(env.commonRes, env.wiring),
                      Get(Or(Get(env.responses, FullPath(prefix, "")), Obj([])), "responseData")))
  {
    assert RoutePathOf(site.arguments) == Ok("");
    assert Middlewares(site.arguments) == [];
  }
}
