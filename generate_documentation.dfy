/** The documentation builder of core/generateDocumentation.js: the routes found by
    the extractor are turned into document fragments one by one, and the fragments
    are folded into one `paths` object with `{ ...acc, ...doc }`.

    Beside the code as written the module keeps the corrected pipeline: routes
    extracted with the schema lookup and the shared response corrected, parameter
    schemas read from where extraction stores them, and fragments merged per path
    so that several methods of one path all survive. */
module Documentation {
  import opened Text
  import opened Json
  import opened SwaggerDoc
  import RouteExtractor
  import SchemaTranscoder

  /** The routes carried by the descriptors. */
  function RoutesOf(ds: seq<RouteExtractor.RouteDescriptor>): (r: seq<Route>)
    ensures |r| == |ds| && forall i :: 0 <= i < |ds| ==> r[i] == ds[i].route
  {
    seq(|ds|, i requires 0 <= i < |ds| => ds[i].route)
  }

  function Paths(routes: seq<Route>): (r: seq<string>)
    ensures |r| == |routes| && forall i :: 0 <= i < |routes| ==> r[i] == routes[i].path
  {
    seq(|routes|, i requires 0 <= i < |routes| => routes[i].path)
  }

  lemma PathsSnoc(routes: seq<Route>)
    requires routes != []
    ensures Paths(routes) == Paths(routes[..|routes| - 1]) + [routes[|routes| - 1].path]
  {
    var init := routes[..|routes| - 1];
    assert forall i :: 0 <= i < |routes| - 1 ==> Paths(routes)[i] == Paths(init)[i];
  }

  // ---------------------------------------------------------------------------
  // As written: a shallow merge

  /** One step of the fold: `{ ...acc, ...doc }`. */
  function MergeStep(acc: Fields, doc: JsValue): Fields {
    SpreadMerge(Obj(acc), doc)
  }

  /** `routes.reduce((acc, route) => ({ ...acc, ...doc(route) }), {})`; the first
      fragment that throws ends the fold. */
  function FoldDocs(routes: seq<Route>, parameter: Fields -> Fields): Result<Fields>
    decreases |routes|
  {
    if routes == [] then Ok([])
    else
      var acc :- FoldDocs(routes[..|routes| - 1], parameter);
      var doc :- SwaggerDocWith(routes[|routes| - 1], parameter);
      Ok(MergeStep(acc, doc))
  }

  /** `generateDocumentation({ routesDir, schemas, responses })` as written. */
  function GenerateDocumentation(files: seq<RouteExtractor.SourceFile>, schemas: SchemaTranscoder.Registry,
                                 responses: JsValue, now: string): Result<JsValue>
  {
    var ds :- RouteExtractor.ParseRoutesOf(files, schemas, responses, now, RouteExtractor.AsWritten);
    var acc :- FoldDocs(RoutesOf(ds), OperationParameter);
    Ok(Obj(acc))
  }

  /** What the last route with path `p` contributes: its fragment's value under `p`. */
  function LastDocAt(routes: seq<Route>, parameter: Fields -> Fields, p: string): JsValue
    decreases |routes|
  {
    if routes == [] then Undefined
    else
      var last := routes[|routes| - 1];
      var doc := SwaggerDocWith(last, parameter);
      if last.path == p && doc.Ok? then Get(doc.value, p)
      else LastDocAt(routes[..|routes| - 1], parameter, p)
  }

  /** A merge step with a one-path fragment sets that path and leaves every other
      path as it was. */
  lemma ShallowStep(acc: Fields, doc: JsValue, path: string, q: string)
    requires DistinctKeys(acc) && doc.Obj? && Keys(doc.fields) == [path]
    ensures DistinctKeys(MergeStep(acc, doc))
    ensures HasKey(MergeStep(acc, doc), q) <==> q == path || HasKey(acc, q)
    ensures Lookup(MergeStep(acc, doc), q) == if q == path then Get(doc, path) else Lookup(acc, q)
  {
    var v := doc.fields[0].1;
    assert Keys(doc.fields)[0] == doc.fields[0].0;
    assert doc.fields == [(path, v)];
    assert [] + acc == acc;
    AssignAllFresh([], acc);
    assert AssignAll(acc, [(path, v)]) == Assign(acc, path, v);
    LookupAssign(acc, path, v, q);
    AssignDistinct(acc, path, v);
  }

  /** The folded object has one key per distinct route path, and under each path the
      value contributed by the last route with that path: an earlier route's
      methods on the same path are gone. */
  lemma {:induction false} ShallowFold(routes: seq<Route>, parameter: Fields -> Fields, p: string)
    requires FoldDocs(routes, parameter).Ok?
    ensures DistinctKeys(FoldDocs(routes, parameter).value)
    ensures HasKey(FoldDocs(routes, parameter).value, p) <==> p in Paths(routes)
    ensures Lookup(FoldDocs(routes, parameter).value, p) == LastDocAt(routes, parameter, p)
    decreases |routes|
  {
    if routes == [] {
      assert !HasKey([], p);
    } else {
      var init := routes[..|routes| - 1];
      var last := routes[|routes| - 1];
      ShallowFold(init, parameter, p);
      var acc := FoldDocs(init, parameter).value;
      var doc := SwaggerDocWith(last, parameter).value;
      DocShape(last, parameter);
      ShallowStep(acc, doc, last.path, p);
      PathsSnoc(routes);
      if last.path != p && !HasKey(acc, p) {
        LookupMissing(acc, p);
      }
    }
  }

  /** Folding no routes gives the empty object. */
  lemma DocumentationOfNoRoutes(files: seq<RouteExtractor.SourceFile>, schemas: SchemaTranscoder.Registry,
                                responses: JsValue, now: string)
    requires responses != Null
    requires forall k :: 0 <= k < |files| ==> !EndsWith(files[k].name, ".route.js")
    ensures GenerateDocumentation(files, schemas, responses, now) == Ok(Obj([]))
  {
    NoRouteFiles(files);
  }

  lemma {:induction false} NoRouteFiles(files: seq<RouteExtractor.SourceFile>)
    requires forall k :: 0 <= k < |files| ==> !EndsWith(files[k].name, ".route.js")
    ensures RouteExtractor.RouteFiles(files) == []
  {
    if files != [] {
      NoRouteFiles(files[..|files| - 1]);
    }
  }

  /** The generated `paths` object: its keys are exactly the paths of the extracted
      routes, and each path holds what the last route with that path produced. */
  lemma DocumentationPaths(files: seq<RouteExtractor.SourceFile>, schemas: SchemaTranscoder.Registry,
                           responses: JsValue, now: string, p: string)
    requires GenerateDocumentation(files, schemas, responses, now).Ok?
    ensures RouteExtractor.ParseRoutesOf(files, schemas, responses, now, RouteExtractor.AsWritten).Ok?
    ensures GenerateDocumentation(files, schemas, responses, now).value.Obj?
    ensures
      var routes := RoutesOf(RouteExtractor.ParseRoutesOf(files, schemas, responses, now, RouteExtractor.AsWritten).value);
      var paths := GenerateDocumentation(files, schemas, responses, now).value.fields;
      && DistinctKeys(paths)
      && (HasKey(paths, p) <==> p in Paths(routes))
      && Lookup(paths, p) == LastDocAt(routes, OperationParameter, p)
  {
    var ds := RouteExtractor.ParseRoutesOf(files, schemas, responses, now, RouteExtractor.AsWritten).value;
    ShallowFold(RoutesOf(ds), OperationParameter, p);
  }

  /** As written, of two routes on the same path with different methods only the
      second survives: the first method's operation is absent from the result. */
  lemma EarlierMethodDropped(first: Route, second: Route, parameter: Fields -> Fields)
    requires first.path == second.path
    requires SwaggerDocWith(first, parameter).Ok? && SwaggerDocWith(second, parameter).Ok?
    requires first.httpMethod.Some? && second.httpMethod.Some?
    requires ToLower(first.httpMethod.value) != ToLower(second.httpMethod.value)
    ensures FoldDocs([first, second], parameter).Ok?
    ensures Lookup(FoldDocs([first, second], parameter).value, first.path).Obj?
    ensures Lookup(Lookup(FoldDocs([first, second], parameter).value, first.path).fields,
                   ToLower(first.httpMethod.value)) == Undefined
  {
    var routes := [first, second];
    assert routes[..1] == [first] && [first][..0] == [];
    assert FoldDocs([first], parameter).Ok?;
    ShallowFold(routes, parameter, first.path);
    DocShape(second, parameter);
    var ops := Get(SwaggerDocWith(second, parameter).value, second.path);
    assert !HasKey(ops.fields, ToLower(first.httpMethod.value)) by {
      assert Keys(ops.fields) == [ToLower(second.httpMethod.value)];
      assert forall i :: 0 <= i < |ops.fields| ==> ops.fields[i].0 == Keys(ops.fields)[i];
    }
    LookupMissing(ops.fields, ToLower(first.httpMethod.value));
  }

  // ---------------------------------------------------------------------------
  // Corrected: fragments merged per path

  /** Each path's operations are merged into those already collected for it. */
  function DeepMerge(acc: Fields, entries: Fields): Fields
    decreases |entries|
  {
    if entries == [] then acc
    else
      var path := entries[0].0;
      DeepMerge(Assign(acc, path, Obj(SpreadMerge(Lookup(acc, path), entries[0].1))), entries[1..])
  }

  function FoldDocsDeep(routes: seq<Route>, parameter: Fields -> Fields): Result<Fields>
    decreases |routes|
  {
    if routes == [] then Ok([])
    else
      var acc :- FoldDocsDeep(routes[..|routes| - 1], parameter);
      var doc :- SwaggerDocWith(routes[|routes| - 1], parameter);
      Ok(DeepMerge(acc, Entries(doc)))
  }

  /** The corrected pipeline end to end. */
  function GenerateDocumentationFixed(files: seq<RouteExtractor.SourceFile>, schemas: SchemaTranscoder.Registry,
                                      responses: JsValue, now: string): Result<JsValue>
  {
    var ds :- RouteExtractor.ParseRoutesOf(files, schemas, responses, now, RouteExtractor.Corrected);
    var acc :- FoldDocsDeep(RoutesOf(ds), OperationParameterFixed);
    Ok(Obj(acc))
  }

  /** The operation of the last route with path `p` whose lower-cased method is `m`. */
  function LastOp(routes: seq<Route>, parameter: Fields -> Fields, p: string, m: string): JsValue
    decreases |routes|
  {
    if routes == [] then Undefined
    else
      var last := routes[|routes| - 1];
      var doc := SwaggerDocWith(last, parameter);
      if last.path == p && last.httpMethod.Some? && ToLower(last.httpMethod.value) == m && doc.Ok?
      then Get(Get(doc.value, p), m)
      else LastOp(routes[..|routes| - 1], parameter, p, m)
  }

  lemma {:induction false} LastOpAbsent(routes: seq<Route>, parameter: Fields -> Fields, p: string, m: string)
    requires p !in Paths(routes)
    ensures LastOp(routes, parameter, p, m) == Undefined
    decreases |routes|
  {
    if routes != [] {
      var init := routes[..|routes| - 1];
      PathsSnoc(routes);
      LastOpAbsent(init, parameter, p, m);
    }
  }

  /** Every path holds an object with distinct keys. */
  ghost predicate NestedDistinct(acc: Fields) {
    forall q :: HasKey(acc, q) ==> Lookup(acc, q).Obj? && DistinctKeys(Lookup(acc, q).fields)
  }

  /** A per-path merge of a one-path, one-method fragment adds that method to the
      path (replacing an operation with the same method) and keeps everything else. */
  lemma DeepStep(acc: Fields, doc: JsValue, path: string, verb: string, q: string, m: string)
    requires DistinctKeys(acc) && NestedDistinct(acc)
    requires doc.Obj? && Keys(doc.fields) == [path]
    requires Get(doc, path).Obj? && Keys(Get(doc, path).fields) == [verb]
    ensures DistinctKeys(DeepMerge(acc, Entries(doc))) && NestedDistinct(DeepMerge(acc, Entries(doc)))
    ensures HasKey(DeepMerge(acc, Entries(doc)), q) <==> q == path || HasKey(acc, q)
    ensures q != path ==> Lookup(DeepMerge(acc, Entries(doc)), q) == Lookup(acc, q)
    ensures Lookup(DeepMerge(acc, Entries(doc)), path).Obj?
    ensures Lookup(Lookup(DeepMerge(acc, Entries(doc)), path).fields, m) ==
      if m == verb then Get(Get(doc, path), m)
      else if HasKey(acc, path) then Lookup(Lookup(acc, path).fields, m)
      else Undefined
  {
    var ops := Get(doc, path);
    assert Keys(doc.fields)[0] == doc.fields[0].0;
    assert doc.fields == [(path, ops)];
    var op := ops.fields[0].1;
    assert Keys(ops.fields)[0] == ops.fields[0].0;
    assert ops.fields == [(verb, op)];
    var before := Lookup(acc, path);
    var merged := SpreadMerge(before, ops);
    var next := Assign(acc, path, Obj(merged));
    assert DeepMerge(acc, Entries(doc)) == next;
    assert DistinctKeys(merged) by {
      AssignAllDistinct([], Spread(before));
      AssignAllDistinct(AssignAll([], Spread(before)), Spread(ops));
    }
    AssignDistinct(acc, path, Obj(merged));
    forall k | HasKey(next, k)
      ensures Lookup(next, k).Obj? && DistinctKeys(Lookup(next, k).fields)
    {
      LookupAssign(acc, path, Obj(merged), k);
    }
    LookupAssign(acc, path, Obj(merged), q);
    LookupAssign(acc, path, Obj(merged), path);
    // The merged operations of the path.
    if HasKey(acc, path) {
      assert [] + before.fields == before.fields;
      AssignAllFresh([], before.fields);
    } else {
      LookupMissing(acc, path);
    }
    assert AssignAll(AssignAll([], Spread(before)), [(verb, op)]) == Assign(AssignAll([], Spread(before)), verb, op);
    LookupAssign(AssignAll([], Spread(before)), verb, op, m);
    if m == verb {
      assert Get(ops, m) == op;
    } else if !HasKey(acc, path) {
      assert AssignAll([], Spread(before)) == [];
    }
  }

  /** Corrected, the `paths` object keeps every method: under each route path, method
      `m` holds the operation of the last route with that path and method, and a
      method no route on that path has is absent. */
  lemma {:induction false} DeepFold(routes: seq<Route>, parameter: Fields -> Fields, p: string, m: string)
    requires FoldDocsDeep(routes, parameter).Ok?
    ensures DistinctKeys(FoldDocsDeep(routes, parameter).value) && NestedDistinct(FoldDocsDeep(routes, parameter).value)
    ensures HasKey(FoldDocsDeep(routes, parameter).value, p) <==> p in Paths(routes)
    ensures HasKey(FoldDocsDeep(routes, parameter).value, p) ==>
      Lookup(Lookup(FoldDocsDeep(routes, parameter).value, p).fields, m) == LastOp(routes, parameter, p, m)
    decreases |routes|
  {
    if routes == [] {
      assert !HasKey([], p);
      assert NestedDistinct([]) by {
        forall q | HasKey([], q) ensures false { }
      }
    } else {
      var init := routes[..|routes| - 1];
      var last := routes[|routes| - 1];
      DeepFoldSnoc(routes, parameter);
      DeepFold(init, parameter, p, m);
      var acc := FoldDocsDeep(init, parameter).value;
      var doc := SwaggerDocWith(last, parameter).value;
      DocShape(last, parameter);
      LastOpSnoc(routes, parameter, p, m);
      if p !in Paths(init) {
        LastOpAbsent(init, parameter, p, m);
      }
      DeepInduct(acc, doc, last.path, ToLower(last.httpMethod.value), p, m,
                 Paths(init), LastOp(init, parameter, p, m), LastOp(routes, parameter, p, m));
      PathsSnoc(routes);
    }
  }

  /** The inductive step of `DeepFold`, on plain values: what holds of the fold so
      far and of the last fragment carries over to their merge. */
  lemma DeepInduct(acc: Fields, doc: JsValue, path: string, verb: string, p: string, m: string,
                   paths: seq<string>, lastBefore: JsValue, lastAfter: JsValue)
    requires DistinctKeys(acc) && NestedDistinct(acc)
    requires HasKey(acc, p) <==> p in paths
    requires HasKey(acc, p) ==> Lookup(Lookup(acc, p).fields, m) == lastBefore
    requires p !in paths ==> lastBefore == Undefined
    requires doc.Obj? && Keys(doc.fields) == [path]
    requires Get(doc, path).Obj? && Keys(Get(doc, path).fields) == [verb]
    requires lastAfter == if path == p && verb == m then Get(Get(doc, p), m) else lastBefore
    ensures DistinctKeys(DeepMerge(acc, Entries(doc))) && NestedDistinct(DeepMerge(acc, Entries(doc)))
    ensures HasKey(DeepMerge(acc, Entries(doc)), p) <==> p in paths + [path]
    ensures HasKey(DeepMerge(acc, Entries(doc)), p) ==> Lookup(Lookup(DeepMerge(acc, Entries(doc)), p).fields, m) == lastAfter
  {
    DeepStep(acc, doc, path, verb, p, m);
  }

  /** One step of the corrected fold: the last route's fragment merged into the
      fold of the others. */
  lemma DeepFoldSnoc(routes: seq<Route>, parameter: Fields -> Fields)
    requires routes != [] && FoldDocsDeep(routes, parameter).Ok?
    ensures FoldDocsDeep(routes[..|routes| - 1], parameter).Ok?
    ensures SwaggerDocWith(routes[|routes| - 1], parameter).Ok?
    ensures FoldDocsDeep(routes, parameter).value ==
      DeepMerge(FoldDocsDeep(routes[..|routes| - 1], parameter).value,
                Entries(SwaggerDocWith(routes[|routes| - 1], parameter).value))
  {
  }

  /** One step of `LastOp`: the last route answers when its path and method match. */
  lemma LastOpSnoc(routes: seq<Route>, parameter: Fields -> Fields, p: string, m: string)
    requires routes != [] && SwaggerDocWith(routes[|routes| - 1], parameter).Ok?
    ensures var last := routes[|routes| - 1];
      LastOp(routes, parameter, p, m) ==
        if last.path == p && ToLower(last.httpMethod.value) == m
        then Get(Get(SwaggerDocWith(last, parameter).value, p), m)
        else LastOp(routes[..|routes| - 1], parameter, p, m)
  {
    DocShape(routes[|routes| - 1], parameter);
  }

  /** Corrected, two routes on one path with different methods both survive. */
  lemma BothMethodsKept(first: Route, second: Route, parameter: Fields -> Fields)
    requires first.path == second.path
    requires SwaggerDocWith(first, parameter).Ok? && SwaggerDocWith(second, parameter).Ok?
    requires first.httpMethod.Some? && second.httpMethod.Some?
    requires ToLower(first.httpMethod.value) != ToLower(second.httpMethod.value)
    ensures FoldDocsDeep([first, second], parameter).Ok?
    ensures HasKey(FoldDocsDeep([first, second], parameter).value, first.path)
    ensures Lookup(FoldDocsDeep([first, second], parameter).value, first.path).Obj?
    ensures Lookup(Lookup(FoldDocsDeep([first, second], parameter).value, first.path).fields,
                   ToLower(first.httpMethod.value)) == OperationIn(SwaggerDocWith(first, parameter).value, first)
    ensures Lookup(Lookup(FoldDocsDeep([first, second], parameter).value, first.path).fields,
                   ToLower(second.httpMethod.value)) == OperationIn(SwaggerDocWith(second, parameter).value, second)
  {
    var routes := [first, second];
    assert routes[..1] == [first] && [first][..0] == [];
    assert Paths(routes)[0] == first.path;
    assert FoldDocsDeep([first], parameter).Ok?;
    DocShape(first, parameter);
    DocShape(second, parameter);
    DeepFold(routes, parameter, first.path, ToLower(first.httpMethod.value));
    DeepFold(routes, parameter, first.path, ToLower(second.httpMethod.value));
  }

  /** The corrected `paths` object: keys are the route paths, and every method of
      every path survives with the operation of the last route declaring it. */
  lemma DocumentationFixedPaths(files: seq<RouteExtractor.SourceFile>, schemas: SchemaTranscoder.Registry,
                                responses: JsValue, now: string, p: string, m: string)
    requires GenerateDocumentationFixed(files, schemas, responses, now).Ok?
    ensures RouteExtractor.ParseRoutesOf(files, schemas, responses, now, RouteExtractor.Corrected).Ok?
    ensures GenerateDocumentationFixed(files, schemas, responses, now).value.Obj?
    ensures
      var routes := RoutesOf(RouteExtractor.ParseRoutesOf(files, schemas, responses, now, RouteExtractor.Corrected).value);
      var paths := GenerateDocumentationFixed(files, schemas, responses, now).value.fields;
      && DistinctKeys(paths) && NestedDistinct(paths)
      && (HasKey(paths, p) <==> p in Paths(routes))
      && (HasKey(paths, p) ==> Lookup(Lookup(paths, p).fields, m) == LastOp(routes, OperationParameterFixed, p, m))
  {
    var ds := RouteExtractor.ParseRoutesOf(files, schemas, responses, now, RouteExtractor.Corrected).value;
    var acc := FoldDocsDeep(RoutesOf(ds), OperationParameterFixed).value;
    assert GenerateDocumentationFixed(files, schemas, responses, now) == Ok(Obj(acc));
    DeepFold(RoutesOf(ds), OperationParameterFixed, p, m);
  }
}
