/** The path templater of utils/transformPath.js: an Express route path such as
    `/:id/profile` becomes the OpenAPI path template `/{id}/profile`, one
    `/`-separated segment at a time. */
module PathTemplate {
  import opened Text
  import opened Json

  /** A segment with a leading colon becomes `{` + the rest + `}`; any other segment
      is kept. Only the first colon is taken off. */
  function TemplateSegment(segment: string): (r: string)
    ensures StartsWith(segment, ":") ==> |r| == |segment| + 1 && r[0] == '{' && r[|r| - 1] == '}'
    ensures StartsWith(segment, ":") ==> r[1..|r| - 1] == segment[1..]
    ensures !StartsWith(segment, ":") ==> r == segment
  {
    if StartsWith(segment, ":") then "{" + segment[1..] + "}" else segment
  }

  function TemplateAll(segments: seq<string>): (r: seq<string>)
    ensures |r| == |segments|
  {
    seq(|segments|, i requires 0 <= i < |segments| => TemplateSegment(segments[i]))
  }

  /** `transformRoutePath(routePath)`: `None` stands for an absent (undefined or null)
      argument. The result is empty exactly when the input is absent or empty. */
  function TransformRoutePath(routePath: Option<string>): (r: string)
    ensures r == "" <==> routePath == None || routePath == Some("")
  {
    match routePath
    case None => ""
    case Some(p) =>
      var joined := Join(TemplateAll(Split(p, '/')), '/');
      TemplatedEmpty(p);
      if joined == "" then "" else joined
  }

  /** Only the empty path templates to the empty string. */
  lemma TemplatedEmpty(p: string)
    ensures Join(TemplateAll(Split(p, '/')), '/') == "" <==> p == ""
  {
    var parts := Split(p, '/');
    var t := TemplateAll(parts);
    if |parts| == 1 {
      JoinSplit(p, '/');
      assert Join(parts, '/') == parts[0] == p;
      assert t[0] == TemplateSegment(parts[0]);
    } else {
      assert Join(t, '/') == t[0] + ['/'] + Join(t[1..], '/');
      JoinSplit(p, '/');
      assert Join(parts, '/') == parts[0] + ['/'] + Join(parts[1..], '/');
    }
  }

  /** A templated segment of a separator-free segment is still separator-free. */
  lemma TemplatedFree(parts: seq<string>)
    requires forall k :: 0 <= k < |parts| ==> Free(parts[k], '/')
    ensures forall k :: 0 <= k < |parts| ==> Free(TemplateAll(parts)[k], '/')
  {
    forall k | 0 <= k < |parts| ensures Free(TemplateAll(parts)[k], '/') {
      var s := parts[k];
      var t := TemplateSegment(s);
      if StartsWith(s, ":") {
        assert t == "{" + s[1..] + "}";
        forall i | 0 <= i < |t| ensures t[i] != '/' {
          if 0 < i < |t| - 1 {
            assert t[i] == s[i];
          }
        }
      }
    }
  }

  /** Segment by segment: the templated path has as many segments as the input, and
      segment k of the output is segment k of the input, templated. */
  lemma {:induction false} TransformSegments(p: string)
    ensures Split(TransformRoutePath(Some(p)), '/') == TemplateAll(Split(p, '/'))
    ensures |Split(TransformRoutePath(Some(p)), '/')| == |Split(p, '/')|
  {
    var parts := Split(p, '/');
    SplitPartsFree(p, '/');
    TemplatedFree(parts);
    SplitJoin(TemplateAll(parts), '/');
  }

  /** A path none of whose segments starts with a colon comes back unchanged. */
  lemma {:induction false} NoParametersUnchanged(p: string)
    requires forall k :: 0 <= k < |Split(p, '/')| ==> !StartsWith(Split(p, '/')[k], ":")
    ensures TransformRoutePath(Some(p)) == p
  {
    var parts := Split(p, '/');
    assert TemplateAll(parts) == parts;
    JoinSplit(p, '/');
  }

  /** Templating twice is templating once: no output segment starts with a colon
      unless it already did in the input, and such a segment never changes. */
  lemma {:induction false} TransformIdempotent(p: string)
    ensures TransformRoutePath(Some(TransformRoutePath(Some(p)))) == TransformRoutePath(Some(p))
  {
    var once := TransformRoutePath(Some(p));
    TransformSegments(p);
    TemplateAllIdempotent(Split(p, '/'));
    JoinSplit(once, '/');
  }

  /** A templated segment never starts with a colon, so templating it again keeps it. */
  lemma TemplateAllIdempotent(parts: seq<string>)
    ensures TemplateAll(TemplateAll(parts)) == TemplateAll(parts)
  {
    var once := TemplateAll(parts);
    forall k | 0 <= k < |parts| ensures TemplateSegment(once[k]) == once[k] {
      assert once[k] == TemplateSegment(parts[k]);
    }
  }

  /** The common Express shape `/<resource>/:<id>` templates to `/<resource>/{<id>}`,
      for any separator-free resource name not starting with a colon and any
      separator-free parameter name. */
  lemma ResourceWithParameter(resource: string, name: string)
    requires Free(resource, '/') && Free(name, '/') && !StartsWith(resource, ":")
    ensures TransformRoutePath(Some("/" + resource + "/:" + name)) == "/" + resource + "/{" + name + "}"
  {
    var p := "/" + resource + "/:" + name;
    ResourceSplit(resource, name);
    ResourceTemplate(resource, name);
    ResourceJoin(resource, name);
    TransformIsJoin(p);
  }

  /** A non-empty path is the join of its templated segments. */
  lemma TransformIsJoin(p: string)
    requires p != ""
    ensures TransformRoutePath(Some(p)) == Join(TemplateAll(Split(p, '/')), '/')
  {
  }

  lemma ResourceSplit(resource: string, name: string)
    requires Free(resource, '/') && Free(name, '/')
    ensures Split("/" + resource + "/:" + name, '/') == ["", resource, ":" + name]
  {
    var param := ":" + name;
    assert Free(param, '/') by {
      forall i | 0 <= i < |param| ensures param[i] != '/' {
        if i > 0 { assert param[i] == name[i - 1]; }
      }
    }
    SplitFree(param, '/');
    SplitAfter(resource, '/', param);
    SplitAfter("", '/', resource + ['/'] + param);
    assert "/" + resource + "/:" + name == "" + ['/'] + (resource + ['/'] + param);
  }

  lemma ResourceTemplate(resource: string, name: string)
    requires !StartsWith(resource, ":")
    ensures TemplateAll(["", resource, ":" + name]) == ["", resource, "{" + name + "}"]
  {
    var param := ":" + name;
    assert StartsWith(param, ":") by { assert param[..1] == ":"; }
    assert param[1..] == name;
  }

  lemma ResourceJoin(resource: string, name: string)
    ensures Join(["", resource, "{" + name + "}"], '/') == "/" + resource + "/{" + name + "}"
  {
    var t := ["", resource, "{" + name + "}"];
    assert Join(t[2..], '/') == "{" + name + "}";
    assert t[1..][1..] == t[2..];
    assert Join(t[1..], '/') == resource + ['/'] + Join(t[2..], '/');
  }

  /** Worked example: only the first of two leading colons is taken off. */
  lemma ExampleDoubleColon()
    ensures TransformRoutePath(Some("/::a")) == "/{" + ":a}"
  {
    ResourceWithParameter("", ":a");
  }

}
