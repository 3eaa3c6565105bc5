/**
  The load-time check of a pipeline request (manifestload.validateRequest) and what it settles
  about the run-time decision.
 */
module LoadCheck {
  import opened Text
  import opened RoutePath
  import opened Glob
  import opened Template
  import opened Authority
  import opened Options

  datatype Param = Param(kind: string, hasDefault: bool, required: bool)

  datatype Operation = Operation(params: map<Bytes, Param>, routes: seq<Route>)

  datatype Manifest = Manifest(capabilities: seq<string>, slots: seq<string>)

  datatype Body = NoBody | JsonBody | FormBody

  /** path is None unless the request path is a literal string. */
  datatype RequestDef = RequestDef(slot: string, verb: string, path: Option<Bytes>, query: set<Bytes>, body: Body)

  datatype LoadError =
    | NoHttpCapability | UndeclaredSlot | PathNotLiteral | BadTemplate(error: TemplateError)
    | BadPlaceholder(name: Bytes) | NoRouteCovers

  function Names(segs: seq<Seg>): seq<Bytes> {
    if segs == [] then []
    else if segs[0].Placeholder? then [segs[0].name] + Names(segs[1..])
    else Names(segs[1..])
  }

  predicate PlaceholderParam(op: Operation, name: Bytes) {
    name in op.params && op.params[name].kind in {"string", "integer"} &&
    (op.params[name].hasDefault || op.params[name].required)
  }

  function WantedType(body: Body): string {
    if body.FormBody? then "application/x-www-form-urlencoded" else "application/json"
  }

  /** routeCoversRequest; `lower` is strings.ToLower. */
  predicate CoversRequest(rt: Route, r: RequestDef, lower: string -> string) {
    (rt.queryKeys.Some? ==> forall k | k in r.query :: k in rt.queryKeys.value) &&
    (r.body.NoBody? || rt.contentType == "" || WantedType(r.body) <= lower(rt.contentType))
  }

  ghost predicate RouteCovers(rt: Route, r: RequestDef, t: PathTemplate, lower: string -> string) {
    rt.slot == r.slot && rt.verb == r.verb && (rt.use == "" || rt.use == DATA) &&
    Covered(t, rt.path) && CoversRequest(rt, r, lower)
  }

  method RouteCoversRequest(rt: Route, r: RequestDef, lower: string -> string) returns (ok: bool)
    ensures ok <==> CoversRequest(rt, r, lower)
  {
    if rt.queryKeys.Some? {
      var allowed: set<Bytes> := {};
      for i := 0 to |rt.queryKeys.value|
        invariant forall k :: k in allowed <==> k in rt.queryKeys.value[..i]
      {
        allowed := allowed + {rt.queryKeys.value[i]};
      }
      assert rt.queryKeys.value[..|rt.queryKeys.value|] == rt.queryKeys.value;
      var left := r.query;
      while left != {}
        invariant left <= r.query
        invariant forall k | k in r.query && k !in left :: k in allowed
        decreases |left|
      {
        var k :| k in left;
        if k !in allowed { return false; }
        left := left - {k};
      }
    }
    if !r.body.NoBody? {
      var want := "application/json";
      if r.body.FormBody? { want := "application/x-www-form-urlencoded"; }
      if rt.contentType != "" && !(want <= lower(rt.contentType)) { return false; }
    }
    return true;
  }

  method DeclaresSlot(slots: seq<string>, name: string) returns (slot: bool)
    ensures slot <==> name in slots
  {
    slot := false;
    for i := 0 to |slots|
      invariant slot <==> name in slots[..i]
    {
      slot := slot || slots[i] == name;
    }
    assert slots[..|slots|] == slots;
  }

  ghost predicate SomeRouteCovers(routes: seq<Route>, r: RequestDef, t: PathTemplate, lower: string -> string) {
    exists i :: 0 <= i < |routes| && RouteCovers(routes[i], r, t, lower)
  }

  method AnyRouteCovers(routes: seq<Route>, r: RequestDef, t: PathTemplate, lower: string -> string)
    returns (ok: bool)
    ensures ok <==> SomeRouteCovers(routes, r, t, lower)
  {
    hide Covered, CoversRequest;
    for i := 0 to |routes|
      invariant forall j | 0 <= j < i :: !RouteCovers(routes[j], r, t, lower)
    {
      var rt := routes[i];
      var covered := CoveredBy(t, rt.path);
      var keys := RouteCoversRequest(rt, r, lower);
      if rt.slot == r.slot && rt.verb == r.verb && (rt.use == "" || rt.use == DATA) && covered && keys {
        assert RouteCovers(routes[i], r, t, lower);
        return true;
      }
    }
    return false;
  }

  predicate ParamsDeclared(op: Operation, names: seq<Bytes>) {
    forall i | 0 <= i < |names| :: PlaceholderParam(op, names[i])
  }

  /** Accepts exactly when some declared route covers the request; returns the parsed template. */
  method ValidateRequest(m: Manifest, op: Operation, r: RequestDef, lower: string -> string)
    returns (res: Result<PathTemplate, LoadError>)
    ensures res.Ok? <==>
            "http" in m.capabilities && r.slot in m.slots && r.path.Some? && Parsed(r.path.value).Ok? &&
            ParamsDeclared(op, Names(Parsed(r.path.value).value.segments)) &&
            SomeRouteCovers(op.routes, r, Parsed(r.path.value).value, lower)
    ensures res.Ok? ==> Parsed(r.path.value) == Ok(res.value) && TemplateOk(res.value)
  {
    hide Parsed, TemplateOk, SomeRouteCovers, PlaceholderParam;
    if "http" !in m.capabilities { return Err(NoHttpCapability); }
    var slot := DeclaresSlot(m.slots, r.slot);
    if !slot { return Err(UndeclaredSlot); }
    if r.path.None? { return Err(PathNotLiteral); }
    var parsed := ParseTemplate(r.path.value);
    if parsed.Err? { return Err(BadTemplate(parsed.error)); }
    var tpl := parsed.value;
    var names := Names(tpl.segments);
    for i := 0 to |names|
      invariant forall j | 0 <= j < i :: PlaceholderParam(op, names[j])
    {
      if !PlaceholderParam(op, names[i]) { return Err(BadPlaceholder(names[i])); }
    }
    ParsedIsOk(r.path.value);
    var covered := AnyRouteCovers(op.routes, r, tpl, lower);
    if covered { return Ok(tpl); }
    return Err(NoRouteCovers);
  }

  /** A request the pipeline step may send: the expanded path, exactly the declared query keys. */
  ghost predicate Sends(r: RequestDef, t: PathTemplate, values: map<Bytes, Bytes>, req: Request) {
    Expanded(t, values) == Ok(req.path) && req.slot == r.slot && req.verb == r.verb && req.query.Keys == r.query
  }

  /**
    What a covering route settles: for every parameter value, only the content type and the body
    size are left to the run-time check.
   */
  lemma {:induction false} CoverLeavesTypeAndSize(
      mime: Mime, lower: string -> string, rt: Route, r: RequestDef, t: PathTemplate,
      values: map<Bytes, Bytes>, req: Request, kb: int)
    requires TemplateOk(t) && RouteCovers(rt, r, t, lower) && Sends(r, t, values, req)
    ensures Canon(req.path) == Ok(req.path)
    ensures Allows(mime, Granted(rt), req, req.path, DATA, kb) <==>
            ContentTypeAllowed(mime, rt.contentType, req.header) && BodyAllowed(rt.maxBodyKB, kb, BodyLen(req))
  {
    CoverageIsSound(t, rt.path, values);
    hide PathGlob, Canon, Expanded, TemplateOk;
    assert QueryAllowed(rt.queryKeys, req.query);
  }

  /** A body-free request through a covering route with no content type is always permitted. */
  lemma {:induction false} LoadedRequestIsPermitted(
      mime: Mime, lower: string -> string, routes: seq<Route>, i: nat, r: RequestDef, t: PathTemplate,
      values: map<Bytes, Bytes>, req: Request, kb: int, grant: seq<Route>)
    requires i < |routes| && TemplateOk(t) && RouteCovers(routes[i], r, t, lower) && routes[i].contentType == ""
    requires Sends(r, t, values, req) && BodyLen(req) == 0
    requires Granted(routes[i]) in grant
    ensures Canon(req.path).Ok? && SomeRouteAllows(mime, grant, req, Canon(req.path).value, DATA, kb)
  {
    CoverLeavesTypeAndSize(mime, lower, routes[i], r, t, values, req, kb);
    hide Allows, Canon;
    var k :| 0 <= k < |grant| && grant[k] == Granted(routes[i]);
    assert Allows(mime, grant[k], req, req.path, DATA, kb);
  }

  /**
    With a content type declared the load-time check and the run-time check part ways: a request
    with neither body nor Content-Type header, accepted at load, is refused at run time.
   */
  lemma {:induction false} TypedRouteRefusesBodyFree(
      mime: Mime, lower: string -> string, rt: Route, r: RequestDef, t: PathTemplate,
      values: map<Bytes, Bytes>, req: Request, kb: int)
    requires TemplateOk(t) && RouteCovers(rt, r, t, lower) && Sends(r, t, values, req)
    requires r.body.NoBody? && BodyLen(req) == 0 && "Content-Type" !in req.header && NormalType(mime, "").None?
    ensures Allows(mime, Granted(rt), req, req.path, DATA, kb) <==> rt.contentType == ""
  {
    CoverLeavesTypeAndSize(mime, lower, rt, r, t, values, req, kb);
  }

  /** Such a request exists: GET / against a route that declares application/json. */
  lemma TypedRouteExample(mime: Mime, lower: string -> string)
    requires NormalType(mime, "").None?
    ensures var rt := Route("s", "GET", [SLASH], "", "", None, "application/json", 0);
            var r := RequestDef("s", "GET", Some([SLASH]), {}, NoBody);
            var req := Request("s", "GET", [SLASH], map[], map[], 0, 0);
            RouteCovers(rt, r, PathTemplate([]), lower) && Parsed([SLASH]) == Ok(PathTemplate([])) &&
            Sends(r, PathTemplate([]), map[], req) && !Allows(mime, Granted(rt), req, [SLASH], DATA, 64)
  {
    RootIsCanonical();
    var rt := Route("s", "GET", [SLASH], "", "", None, "application/json", 0);
    assert Covered(PathTemplate([]), rt.path);
  }
}
