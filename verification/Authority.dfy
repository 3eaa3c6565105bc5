/**
  Route authority: capabilities.Authorize at run time, the identity tuple approvals compare, and
  what the one says about the other.
 */
module Authority {
  import opened Text
  import opened RoutePath
  import opened Glob
  import opened GlobLanguage
  import opened Template
  import opened PathJoin
  import opened Order
  import opened Options

  datatype Route = Route(
    slot: string, verb: string, path: Bytes, use: string, reason: string,
    queryKeys: Option<seq<Bytes>>, contentType: string, maxBodyKB: int)

  datatype Request = Request(
    slot: string, verb: string, path: Bytes, query: map<Bytes, Bytes>,
    header: map<string, string>, body: nat, statedLen: int)

  /** mime.ParseMediaType followed by mime.FormatMediaType; None when either refuses. */
  type Mime = string -> Option<string>

  const DATA := "data"
  const CORE_DEFAULT_BODY_KB := 64

  // ---------------------------------------------------------------- one route, one request

  function BodyLen(req: Request): int {
    if req.statedLen != 0 then req.statedLen else req.body
  }

  function NormalType(mime: Mime, v: string): Option<string> {
    match mime(v)
    case None => None
    case Some(out) => if out == "" then None else Some(out)
  }

  predicate QueryAllowed(allowed: Option<seq<Bytes>>, query: map<Bytes, Bytes>) {
    allowed.Some? ==> forall k | k in query :: k in allowed.value
  }

  function ContentTypeHeader(header: map<string, string>): string {
    if "Content-Type" in header then header["Content-Type"] else ""
  }

  predicate ContentTypeAllowed(mime: Mime, declared: string, header: map<string, string>) {
    declared == "" ||
    (NormalType(mime, ContentTypeHeader(header)).Some? &&
     NormalType(mime, ContentTypeHeader(header)) == NormalType(mime, declared))
  }

  function EnforcedKB(kb: int): int
  {
    if kb <= 0 then CORE_DEFAULT_BODY_KB else kb
  }

  /** The route's own ceiling narrows the enforced one, never widens it. */
  function CeilingKB(routeMax: int, kb: int): int
  {
    if 0 < routeMax < EnforcedKB(kb) then routeMax else EnforcedKB(kb)
  }

  predicate BodyAllowed(routeMax: int, kb: int, len: int) {
    0 <= len <= CeilingKB(routeMax, kb) * 1024
  }

  ghost predicate Reaches(route: Route, slot: string, verb: string, path: Bytes, use: string) {
    route.slot == slot && route.use == use && route.verb == verb &&
    Canon(route.path).Ok? && PathGlob(Canon(route.path).value, path)
  }

  ghost predicate Allows(mime: Mime, route: Route, req: Request, path: Bytes, use: string, kb: int) {
    Reaches(route, req.slot, req.verb, path, use) && QueryAllowed(route.queryKeys, req.query) &&
    ContentTypeAllowed(mime, route.contentType, req.header) && BodyAllowed(route.maxBodyKB, kb, BodyLen(req))
  }

  ghost predicate SomeRouteAllows(mime: Mime, routes: seq<Route>, req: Request, path: Bytes, use: string, kb: int) {
    exists i :: 0 <= i < |routes| && Allows(mime, routes[i], req, path, use, kb)
  }

  // ---------------------------------------------------------------- Authorize

  method QueryKeysAllowed(allowed: Option<seq<Bytes>>, query: map<Bytes, Bytes>) returns (ok: bool)
    ensures ok <==> QueryAllowed(allowed, query)
  {
    if allowed.None? { return true; }
    var allowedSet: set<Bytes> := {};
    for i := 0 to |allowed.value|
      invariant forall k :: k in allowedSet <==> k in allowed.value[..i]
    {
      allowedSet := allowedSet + {allowed.value[i]};
    }
    assert allowed.value[..|allowed.value|] == allowed.value;
    var left := query.Keys;
    while left != {}
      invariant left <= query.Keys
      invariant forall k | k in query && k !in left :: k in allowedSet
      decreases |left|
    {
      var k :| k in left;
      if k !in allowedSet { return false; }
      left := left - {k};
    }
    return true;
  }

  method RouteMatches(route: Route, slot: string, verb: string, path: Bytes, use: string) returns (ok: bool)
    ensures ok <==> Reaches(route, slot, verb, path, use)
  {
    if route.slot != slot || route.use != use || route.verb != verb { return false; }
    var pattern := Canonicalise(route.path);
    if pattern.Err? { return false; }
    ok := Match(pattern.value, path);
  }

  method AnyRouteAllows(mime: Mime, routes: seq<Route>, req: Request, path: Bytes, use: string, kb: int)
    returns (ok: bool)
    ensures ok <==> SomeRouteAllows(mime, routes, req, path, use, kb)
  {
    for i := 0 to |routes|
      invariant forall j | 0 <= j < i :: !Allows(mime, routes[j], req, path, use, kb)
    {
      var route := routes[i];
      var reach := RouteMatches(route, req.slot, req.verb, path, use);
      if !reach { continue; }
      var keys := QueryKeysAllowed(route.queryKeys, req.query);
      if !keys { continue; }
      if !ContentTypeAllowed(mime, route.contentType, req.header) { continue; }
      if !BodyAllowed(route.maxBodyKB, kb, BodyLen(req)) { continue; }
      assert Allows(mime, routes[i], req, path, use, kb);
      return true;
    }
    return false;
  }

  /** A connection's allowedPaths: empty means no restriction. */
  predicate ConnectionPermits(allowed: seq<Bytes>, path: Bytes) {
    |allowed| == 0 ||
    exists i | 0 <= i < |allowed| :: Canon(allowed[i]).Ok? && HasPathPrefix(path, Canon(allowed[i]).value)
  }

  method ConnectionAllows(allowed: seq<Bytes>, path: Bytes) returns (ok: bool)
    ensures ok <==> ConnectionPermits(allowed, path)
  {
    if |allowed| == 0 { return true; }
    for i := 0 to |allowed|
      invariant forall j | 0 <= j < i :: !(Canon(allowed[j]).Ok? && HasPathPrefix(path, Canon(allowed[j]).value))
    {
      var c := Canonicalise(allowed[i]);
      if c.Err? { continue; }
      if HasPathPrefix(path, c.value) { return true; }
    }
    return false;
  }

  datatype Grant = Grant(
    manifestRoutes: seq<Route>, approvedRoutes: seq<Route>,
    connections: map<string, seq<Bytes>>, requestBodyKB: int)

  datatype Denial = PathRefused(error: PathError) | NoManifestRoute | NoApprovedRoute | ConnectionForbids

  /** Three policies, each consulted on its own, over one canonical path; the first that objects is named. */
  method Authorize(mime: Mime, g: Grant, req: Request, use: string) returns (r: Option<Denial>)
    ensures Canon(req.path).Err? ==> r == Some(PathRefused(Canon(req.path).error))
    ensures Canon(req.path).Ok? ==>
              var path := Canon(req.path).value;
              r == if !SomeRouteAllows(mime, g.manifestRoutes, req, path, use, g.requestBodyKB)
                     then Some(NoManifestRoute)
                   else if !SomeRouteAllows(mime, g.approvedRoutes, req, path, use, g.requestBodyKB)
                     then Some(NoApprovedRoute)
                   else if req.slot in g.connections && !ConnectionPermits(g.connections[req.slot], path)
                   then Some(ConnectionForbids) else None
  {
    var canonical := Canonicalise(req.path);
    if canonical.Err? { return Some(PathRefused(canonical.error)); }
    var path := canonical.value;
    var m := AnyRouteAllows(mime, g.manifestRoutes, req, path, use, g.requestBodyKB);
    if !m { return Some(NoManifestRoute); }
    var a := AnyRouteAllows(mime, g.approvedRoutes, req, path, use, g.requestBodyKB);
    if !a { return Some(NoApprovedRoute); }
    if req.slot in g.connections {
      var c := ConnectionAllows(g.connections[req.slot], path);
      if !c { return Some(ConnectionForbids); }
    }
    return None;
  }

  // ---------------------------------------------------------------- identity

  datatype Identity = Identity(
    slot: string, verb: string, path: Bytes, use: string,
    queryKeys: Bytes, contentType: string, maxBodyKB: int)

  datatype RouteError = RoutePathError(path: PathError) | BadContentType

  function UseOf(use: string): string { if use == "" then DATA else use }

  function NormalContentType(mime: Mime, v: string): Option<string> {
    if v == "" then Some("") else NormalType(mime, v)
  }

  const KEY: Bytes -> seq<int> := (k: Bytes) => k

  /** nil is "*"; a list is NUL, then the sorted distinct keys joined by NUL. */
  function CanonicalQueryKeys(keys: Option<seq<Bytes>>): Bytes {
    match keys
    case None => [STAR]
    case Some(ks) => [0] + Join(SortedSet(KEY, ks), 0)
  }

  /** The code path: copy, sort, drop adjacent duplicates in place, join. */
  method ComputeQueryKeys(keys: Option<seq<Bytes>>) returns (text: Bytes)
    ensures text == CanonicalQueryKeys(keys)
  {
    if keys.None? { return [STAR]; }
    var sorted := SortBy(KEY, keys.value);
    var cp := new Bytes[|sorted|](i requires 0 <= i < |sorted| => sorted[i]);
    assert cp[..] == sorted;
    var n := DedupInPlace(cp);
    return [0] + Join(cp[..n], 0);
  }

  function EffectiveMaxBodyKB(routeMax: int, kb: int): int {
    if routeMax > 0 then routeMax else EnforcedKB(kb)
  }

  function IdentityOf(mime: Mime, r: Route, kb: int): Result<Identity, RouteError> {
    var path := Canon(r.path);
    if path.Err? then Err(RoutePathError(path.error))
    else
      var ct := NormalContentType(mime, r.contentType);
      if ct.None? then Err(BadContentType)
      else
        Ok(Identity(r.slot, r.verb, path.value, UseOf(r.use), CanonicalQueryKeys(r.queryKeys),
                    ct.value, EffectiveMaxBodyKB(r.maxBodyKB, kb)))
  }

  /** The route a grant carries: the use defaulted, the display-only reason gone. */
  function Granted(r: Route): Route {
    r.(use := UseOf(r.use), reason := "")
  }

  predicate PlainKey(k: Bytes) { k != [] && 0 !in k }

  predicate PlainKeys(keys: Option<seq<Bytes>>) {
    keys.Some? ==> forall k | k in keys.value :: PlainKey(k)
  }

  /** Both unconstrained, or the same set of keys. */
  predicate SameKeys(a: Option<seq<Bytes>>, b: Option<seq<Bytes>>) {
    a.Some? == b.Some? &&
    (a.Some? ==> (forall k | k in a.value :: k in b.value) && forall k | k in b.value :: k in a.value)
  }

  /** Every query that a permits, b permits. */
  predicate KeysWithin(a: Option<seq<Bytes>>, b: Option<seq<Bytes>>) {
    b.Some? ==> a.Some? && forall k | k in a.value :: k in b.value
  }

  /** The joined text forgets order and repetition; on non-empty, NUL-free keys it forgets nothing else. */
  lemma {:induction false} QueryKeysDecide(a: Option<seq<Bytes>>, b: Option<seq<Bytes>>)
    ensures SameKeys(a, b) ==> CanonicalQueryKeys(a) == CanonicalQueryKeys(b)
    ensures PlainKeys(a) && PlainKeys(b) ==> (CanonicalQueryKeys(a) == CanonicalQueryKeys(b) <==> SameKeys(a, b))
    ensures CanonicalQueryKeys(a) == CanonicalQueryKeys(b) ==> a.Some? == b.Some?
  {
    if a.Some? && b.Some? {
      var x, y := SortedSet(KEY, a.value), SortedSet(KEY, b.value);
      SortedSetDecides(KEY, a.value, b.value);
      if PlainKeys(a) && PlainKeys(b) {
        SortedSetIs(KEY, a.value);
        SortedSetIs(KEY, b.value);
        assert forall k | k in x :: PlainKey(k);
        assert forall k | k in y :: PlainKey(k);
        JoinPlain(x, y);
        assert ([0] + Join(x, 0))[1..] == Join(x, 0) && ([0] + Join(y, 0))[1..] == Join(y, 0);
      }
    } else if a.Some? {
      assert CanonicalQueryKeys(a)[0] == 0;
    } else if b.Some? {
      assert CanonicalQueryKeys(b)[0] == 0;
    }
  }

  lemma {:induction false} JoinPlain(x: seq<Bytes>, y: seq<Bytes>)
    requires forall k | k in x :: PlainKey(k)
    requires forall k | k in y :: PlainKey(k)
    ensures Join(x, 0) == Join(y, 0) <==> x == y
  {
    if x != [] { SplitJoin(x, 0); assert PlainKey(x[0]); }
    if y != [] { SplitJoin(y, 0); assert PlainKey(y[0]); }
    assert x != [] ==> Join(x, 0) != [];
    assert y != [] ==> Join(y, 0) != [];
  }

  /** Outside that domain it loses more: no key at all and one empty key share a text. */
  lemma EmptyKeyCollides()
    ensures CanonicalQueryKeys(Some([])) == CanonicalQueryKeys(Some([[]]))
    ensures QueryAllowed(Some([[]]), map[[] := []]) && !QueryAllowed(Some([]), map[[] := []])
  {
    var k: Bytes := [];
    assert SortBy(KEY, [k]) == Insert(KEY, k, SortBy(KEY, [k][1..]));
    assert SortedSet(KEY, [k]) == [k];
    assert k in map[k := k];
  }

  // ---------------------------------------------------------------- what authority is

  /** The two routes permit the same requests under every ceiling up to the manifest's. */
  ghost predicate SameAuthority(mime: Mime, a: Route, b: Route, kb: int) {
    forall req, path, use, enforced | EnforcedKB(enforced) <= EnforcedKB(kb) && Canonical(path) ::
      Allows(mime, Granted(a), req, path, use, enforced) <==> Allows(mime, Granted(b), req, path, use, enforced)
  }

  /** Equal in every component that can decide a request; the globs up to runs of stars. */
  predicate SameTuple(mime: Mime, a: Route, b: Route, kb: int)
    requires Canon(a.path).Ok? && Canon(b.path).Ok?
  {
    a.slot == b.slot && a.verb == b.verb && UseOf(a.use) == UseOf(b.use) &&
    SameGlob(Canon(a.path).value, Canon(b.path).value) && SameKeys(a.queryKeys, b.queryKeys) &&
    NormalContentType(mime, a.contentType) == NormalContentType(mime, b.contentType) &&
    CeilingKB(a.maxBodyKB, kb) == CeilingKB(b.maxBodyKB, kb)
  }

  /** A request the route itself permits: its own pattern as the path, its own content type. */
  function Probe(r: Route, keys: set<Bytes>, len: int): Request
    requires Canon(r.path).Ok?
  {
    Request(r.slot, r.verb, Canon(r.path).value, map k | k in keys :: [],
            if r.contentType == "" then map[] else map["Content-Type" := r.contentType], 0, len)
  }

  lemma {:induction false} ProbeAllowed(mime: Mime, r: Route, keys: set<Bytes>, len: int, kb: int)
    requires IdentityOf(mime, r, kb).Ok?
    requires QueryAllowed(r.queryKeys, map k | k in keys :: []) && 0 <= len <= CeilingKB(r.maxBodyKB, kb) * 1024
    ensures Allows(mime, Granted(r), Probe(r, keys, len), Canon(r.path).value, UseOf(r.use), kb)
    ensures Canonical(Canon(r.path).value)
  {
    CanonIdempotent(r.path);
    GlobMatchesItself(Canon(r.path).value);
    hide Canon, PathGlob, Canonical;
  }

  lemma {:induction false} AuthorityGivesLanguage(mime: Mime, a: Route, b: Route, kb: int, path: Bytes)
    requires IdentityOf(mime, a, kb).Ok? && IdentityOf(mime, b, kb).Ok? && SameAuthority(mime, a, b, kb)
    requires Canonical(path) && PathGlob(Canon(a.path).value, path)
    ensures PathGlob(Canon(b.path).value, path)
  {
    hide Canon, PathGlob, Canonical;
    var req := Probe(a, {}, 0);
    assert Allows(mime, Granted(a), req, path, UseOf(a.use), kb);
  }

  lemma {:induction false} AuthorityGivesParts(mime: Mime, a: Route, b: Route, kb: int)
    requires IdentityOf(mime, a, kb).Ok? && IdentityOf(mime, b, kb).Ok? && SameAuthority(mime, a, b, kb)
    requires NormalType(mime, "").None?
    ensures a.slot == b.slot && a.verb == b.verb && UseOf(a.use) == UseOf(b.use)
    ensures b.contentType != "" ==> NormalContentType(mime, a.contentType) == NormalContentType(mime, b.contentType)
    ensures CeilingKB(a.maxBodyKB, kb) <= CeilingKB(b.maxBodyKB, kb)
  {
    var len := CeilingKB(a.maxBodyKB, kb) * 1024;
    ProbeAllowed(mime, a, {}, len, kb);
    hide Canon, PathGlob, Canonical;
    assert Allows(mime, Granted(b), Probe(a, {}, len), Canon(a.path).value, UseOf(a.use), kb);
  }

  /** Under the ceiling `enforced` the first route permits no request that the second does not. */
  ghost predicate Narrower(mime: Mime, a: Route, b: Route, enforced: int) {
    forall req, path, use | Canonical(path) && Allows(mime, Granted(a), req, path, use, enforced) ::
      Allows(mime, Granted(b), req, path, use, enforced)
  }

  lemma {:induction false} NarrowerGivesCeiling(mime: Mime, a: Route, b: Route, enforced: int)
    requires IdentityOf(mime, a, enforced).Ok? && Narrower(mime, a, b, enforced)
    ensures CeilingKB(a.maxBodyKB, enforced) <= CeilingKB(b.maxBodyKB, enforced)
  {
    var len := CeilingKB(a.maxBodyKB, enforced) * 1024;
    ProbeAllowed(mime, a, {}, len, enforced);
    hide Canon, PathGlob, Canonical;
    assert Allows(mime, Granted(b), Probe(a, {}, len), Canon(a.path).value, UseOf(a.use), enforced);
  }

  lemma {:induction false} NarrowerGivesKeys(mime: Mime, a: Route, b: Route, enforced: int)
    requires IdentityOf(mime, a, enforced).Ok? && Narrower(mime, a, b, enforced)
    ensures KeysWithin(a.queryKeys, b.queryKeys)
  {
    if b.queryKeys.Some? {
      if a.queryKeys.None? {
        var k := FreshKey(b.queryKeys.value);
        ProbeAllowed(mime, a, {k}, 0, enforced);
      } else {
        forall k | k in a.queryKeys.value ensures k in b.queryKeys.value {
          ProbeAllowed(mime, a, {k}, 0, enforced);
          assert Allows(mime, Granted(b), Probe(a, {k}, 0), Canon(a.path).value, UseOf(a.use), enforced);
        }
      }
    }
  }

  lemma {:induction false} FreshKey(ks: seq<Bytes>) returns (k: Bytes)
    ensures k != [] && k !in ks && forall x | x in ks :: |x| < |k|
  {
    if ks == [] { return [1]; }
    var rest := FreshKey(ks[1..]);
    k := rest + ks[0];
    forall x | x in ks ensures |x| < |k| {
      if x != ks[0] { assert x in ks[1..]; }
    }
  }

  /**
    What authority is: two routes permit the same requests exactly when they agree on slot, method,
    use, the globs up to runs of stars, the set of query keys, the normal content type and the body
    ceiling after the manifest's limit. All of it can be read off the two routes.
   */
  lemma {:induction false} AuthorityIs(mime: Mime, a: Route, b: Route, kb: int)
    requires IdentityOf(mime, a, kb).Ok? && IdentityOf(mime, b, kb).Ok? && NormalType(mime, "").None?
    ensures SameAuthority(mime, a, b, kb) <==> SameTuple(mime, a, b, kb)
  {
    hide Canon, PathGlob, Canonical, SameAuthority, SameGlob, Allows, Narrower;
    if SameAuthority(mime, a, b, kb) {
      AuthoritySymmetric(mime, a, b, kb);
      AuthorityGivesParts(mime, a, b, kb);
      AuthorityGivesParts(mime, b, a, kb);
      AuthorityNarrows(mime, a, b, kb);
      AuthorityNarrows(mime, b, a, kb);
      NarrowerGivesKeys(mime, a, b, kb);
      NarrowerGivesKeys(mime, b, a, kb);
      AuthorityGivesGlob(mime, a, b, kb);
    }
    if SameTuple(mime, a, b, kb) { TupleGivesAuthority(mime, a, b, kb); }
  }

  lemma AuthorityNarrows(mime: Mime, a: Route, b: Route, kb: int)
    requires SameAuthority(mime, a, b, kb)
    ensures Narrower(mime, a, b, kb)
  {
    hide Allows, Canonical;
  }

  lemma AuthoritySymmetric(mime: Mime, a: Route, b: Route, kb: int)
    requires SameAuthority(mime, a, b, kb)
    ensures SameAuthority(mime, b, a, kb)
  {
    hide Allows, Canonical;
  }

  lemma {:induction false} AuthorityGivesGlob(mime: Mime, a: Route, b: Route, kb: int)
    requires IdentityOf(mime, a, kb).Ok? && IdentityOf(mime, b, kb).Ok? && SameAuthority(mime, a, b, kb)
    ensures SameGlob(Canon(a.path).value, Canon(b.path).value)
  {
    var g, h := Canon(a.path).value, Canon(b.path).value;
    CanonIdempotent(a.path);
    CanonIdempotent(b.path);
    hide Canon, PathGlob, Canonical, SameAuthority, SameGlob, Allows;
    forall path | Canonical(path) ensures PathGlob(g, path) <==> PathGlob(h, path) {
      if PathGlob(g, path) { AuthorityGivesLanguage(mime, a, b, kb, path); }
      if PathGlob(h, path) { AuthorityGivesLanguage(mime, b, a, kb, path); }
    }
    SameLanguageIs(g, h);
  }

  lemma {:induction false} TupleAllows(
      mime: Mime, a: Route, b: Route, kb: int, req: Request, path: Bytes, use: string, enforced: int)
    requires Canon(a.path).Ok? && Canon(b.path).Ok? && SameTuple(mime, a, b, kb)
    requires NormalContentType(mime, b.contentType).Some?
    requires PathGlob(Canon(b.path).value, path) || !PathGlob(Canon(a.path).value, path)
    requires EnforcedKB(enforced) <= EnforcedKB(kb) && Allows(mime, Granted(a), req, path, use, enforced)
    ensures Allows(mime, Granted(b), req, path, use, enforced)
  {
    hide Canon, PathGlob, SameGlob;
  }

  lemma {:induction false} TupleGivesAuthority(mime: Mime, a: Route, b: Route, kb: int)
    requires IdentityOf(mime, a, kb).Ok? && IdentityOf(mime, b, kb).Ok? && SameTuple(mime, a, b, kb)
    ensures SameAuthority(mime, a, b, kb)
  {
    CanonIdempotent(a.path);
    CanonIdempotent(b.path);
    var g, h := Canon(a.path).value, Canon(b.path).value;
    assert SameTuple(mime, b, a, kb) by { hide Canon, Collapse, Segments; }
    hide Canon, PathGlob, Canonical, SameGlob, SameTuple, Allows;
    assert SameGlob(g, h) by { TupleGlobs(mime, a, b, kb); }
    SameLanguageIs(g, h);
    forall req, path, use, enforced | EnforcedKB(enforced) <= EnforcedKB(kb) && Canonical(path)
      ensures Allows(mime, Granted(a), req, path, use, enforced) <==> Allows(mime, Granted(b), req, path, use, enforced)
    {
      if Allows(mime, Granted(a), req, path, use, enforced) { TupleAllows(mime, a, b, kb, req, path, use, enforced); }
      if Allows(mime, Granted(b), req, path, use, enforced) { TupleAllows(mime, b, a, kb, req, path, use, enforced); }
    }
  }

  lemma TupleGlobs(mime: Mime, a: Route, b: Route, kb: int)
    requires Canon(a.path).Ok? && Canon(b.path).Ok? && SameTuple(mime, a, b, kb)
    ensures SameGlob(Canon(a.path).value, Canon(b.path).value)
  {
  }

  /**
    Of two routes with one identity the first permits no more than the second, under any ceiling,
    exactly when its query keys are among the second's and its body ceiling is no larger.
   */
  lemma {:induction false} OneIdentityNarrows(mime: Mime, a: Route, b: Route, kb: int, enforced: int)
    requires IdentityOf(mime, a, kb).Ok? && IdentityOf(mime, a, kb) == IdentityOf(mime, b, kb)
    ensures Narrower(mime, a, b, enforced) <==>
            KeysWithin(a.queryKeys, b.queryKeys) && CeilingKB(a.maxBodyKB, enforced) <= CeilingKB(b.maxBodyKB, enforced)
  {
    if Narrower(mime, a, b, enforced) {
      NarrowerGivesKeys(mime, a, b, enforced);
      NarrowerGivesCeiling(mime, a, b, enforced);
    }
    hide Canon, PathGlob, Canonical, CanonicalQueryKeys;
  }

  /**
    Equal identities carry equal authority exactly when the key sets are equal, as they are when no
    key is empty or holds a NUL.
   */
  lemma {:induction false} IdentityIsSound(mime: Mime, a: Route, b: Route, kb: int)
    requires IdentityOf(mime, a, kb).Ok? && IdentityOf(mime, a, kb) == IdentityOf(mime, b, kb)
    ensures SameAuthority(mime, a, b, kb) <==> SameKeys(a.queryKeys, b.queryKeys)
    ensures PlainKeys(a.queryKeys) && PlainKeys(b.queryKeys) ==> SameKeys(a.queryKeys, b.queryKeys)
  {
    QueryKeysDecide(a.queryKeys, b.queryKeys);
    hide Canon, PathGlob, Canonical, CanonicalQueryKeys;
    if SameAuthority(mime, a, b, kb) {
      OneIdentityNarrows(mime, a, b, kb, kb);
      OneIdentityNarrows(mime, b, a, kb, kb);
    }
  }

  // ---------------------------------------------------------------- one route inside others

  /** The first content type, if any, is one the second lets through. */
  predicate TypeWithin(mime: Mime, a: string, b: string) {
    b == "" || (a != "" && NormalType(mime, a) == NormalType(mime, b))
  }

  /** The second route answers whatever the first does, apart from content types: read off the two. */
  ghost predicate Spans(a: Route, b: Route, kb: int) {
    a.slot == b.slot && a.verb == b.verb && UseOf(a.use) == UseOf(b.use) &&
    Canon(a.path).Ok? && Canon(b.path).Ok? && PathGlob(Canon(b.path).value, Canon(a.path).value) &&
    KeysWithin(a.queryKeys, b.queryKeys) && CeilingKB(a.maxBodyKB, kb) <= CeilingKB(b.maxBodyKB, kb)
  }

  ghost predicate Subsumed(mime: Mime, a: Route, b: Route, kb: int) {
    Spans(a, b, kb) && TypeWithin(mime, a.contentType, b.contentType)
  }

  ghost predicate SubsumedByOne(mime: Mime, a: Route, routes: seq<Route>, kb: int) {
    exists i :: 0 <= i < |routes| && Subsumed(mime, a, routes[i], kb)
  }

  function KeysOf(routes: seq<Route>): (ks: seq<Bytes>)
    ensures forall i, k | 0 <= i < |routes| && routes[i].queryKeys.Some? && k in routes[i].queryKeys.value :: k in ks
  {
    if routes == [] then []
    else KeysOf(routes[1..]) + if routes[0].queryKeys.Some? then routes[0].queryKeys.value else []
  }

  /** The most the route permits: every key it declares, or one that no list declares, and a full body. */
  lemma {:induction false} WidestProbe(mime: Mime, a: Route, routes: seq<Route>, kb: int) returns (req: Request)
    requires IdentityOf(mime, a, kb).Ok?
    ensures Canonical(Canon(a.path).value) && Allows(mime, Granted(a), req, Canon(a.path).value, UseOf(a.use), kb)
    ensures forall i | 0 <= i < |routes| &&
                       Allows(mime, Granted(routes[i]), req, Canon(a.path).value, UseOf(a.use), kb) ::
              Spans(a, routes[i], kb) && (NormalType(mime, "").None? ==> Subsumed(mime, a, routes[i], kb))
  {
    var unused := FreshKey(KeysOf(routes));
    var keys := if a.queryKeys.None? then {unused} else set k | k in a.queryKeys.value;
    var len := CeilingKB(a.maxBodyKB, kb) * 1024;
    ProbeAllowed(mime, a, keys, len, kb);
    req := Probe(a, keys, len);
    hide Canon, PathGlob, Canonical, KeysOf;
    forall i | 0 <= i < |routes| && Allows(mime, Granted(routes[i]), req, Canon(a.path).value, UseOf(a.use), kb)
      ensures Spans(a, routes[i], kb) && (NormalType(mime, "").None? ==> Subsumed(mime, a, routes[i], kb))
    {
      ProbeReaches(mime, a, routes[i], keys, len, kb, unused);
    }
  }

  lemma {:induction false} ProbeReaches(
      mime: Mime, a: Route, b: Route, keys: set<Bytes>, len: int, kb: int, unused: Bytes)
    requires IdentityOf(mime, a, kb).Ok? && len == CeilingKB(a.maxBodyKB, kb) * 1024
    requires keys == if a.queryKeys.None? then {unused} else set k | k in a.queryKeys.value
    requires b.queryKeys.Some? ==> unused !in b.queryKeys.value
    requires Allows(mime, Granted(b), Probe(a, keys, len), Canon(a.path).value, UseOf(a.use), kb)
    ensures Spans(a, b, kb) && (NormalType(mime, "").None? ==> Subsumed(mime, a, b, kb))
  {
    hide Canon, PathGlob;
    var query := Probe(a, keys, len).query;
    assert forall k | k in keys :: k in query;
  }

  lemma {:induction false} SubsumedAllows(
      mime: Mime, a: Route, b: Route, req: Request, path: Bytes, use: string, kb: int)
    requires Subsumed(mime, a, b, kb) && Allows(mime, Granted(a), req, path, use, kb)
    ensures Allows(mime, Granted(b), req, path, use, kb)
  {
    hide Canon, PathGlob;
    GlobTransitive(Canon(b.path).value, Canon(a.path).value, path);
  }

  /** Under this ceiling the routes together permit whatever the route does. */
  ghost predicate Jointly(mime: Mime, a: Route, routes: seq<Route>, kb: int) {
    forall req, path, use | Canonical(path) && Allows(mime, Granted(a), req, path, use, kb) ::
      exists i :: 0 <= i < |routes| && Allows(mime, Granted(routes[i]), req, path, use, kb)
  }

  /**
    Routes together permit whatever a route does exactly when one of them does, and that can be read
    off the two: same slot, method and use, a glob that matches the other's text, no fewer keys, a
    content type that lets it through and no smaller ceiling.
   */
  lemma {:induction false} CoveredByRoutesIff(mime: Mime, a: Route, routes: seq<Route>, kb: int)
    requires IdentityOf(mime, a, kb).Ok? && NormalType(mime, "").None?
    ensures Jointly(mime, a, routes, kb) <==> SubsumedByOne(mime, a, routes, kb)
  {
    hide Canonical, Allows, Subsumed, Spans;
    var req := WidestProbe(mime, a, routes, kb);
    if i :| 0 <= i < |routes| && Subsumed(mime, a, routes[i], kb) {
      forall req, path, use | Canonical(path) && Allows(mime, Granted(a), req, path, use, kb)
        ensures Allows(mime, Granted(routes[i]), req, path, use, kb)
      {
        SubsumedAllows(mime, a, routes[i], req, path, use, kb);
      }
    }
  }

  /** Two key sets under one identity. */
  predicate TooCoarse(mime: Mime, a: Route, b: Route, kb: int) {
    IdentityOf(mime, a, kb) == IdentityOf(mime, b, kb) && !SameKeys(a.queryKeys, b.queryKeys)
  }

  /**
    One authority under two identities: the globs are spelled differently,
    or the declared ceilings differ above the limit.
   */
  predicate TooFine(mime: Mime, a: Route, b: Route, kb: int)
    requires Canon(a.path).Ok? && Canon(b.path).Ok?
  {
    SameTuple(mime, a, b, kb) &&
    (Canon(a.path) != Canon(b.path) || EffectiveMaxBodyKB(a.maxBodyKB, kb) != EffectiveMaxBodyKB(b.maxBodyKB, kb))
  }

  /**
    The documented "two routes grant the same authority iff their identities are equal"
    holds of two routes exactly when neither is the case.
   */
  lemma {:induction false} IdentityIsCompleteUpTo(mime: Mime, a: Route, b: Route, kb: int)
    requires IdentityOf(mime, a, kb).Ok? && IdentityOf(mime, b, kb).Ok? && NormalType(mime, "").None?
    ensures (IdentityOf(mime, a, kb) == IdentityOf(mime, b, kb) <==> SameAuthority(mime, a, b, kb)) <==>
            !TooFine(mime, a, b, kb) && !TooCoarse(mime, a, b, kb)
  {
    AuthorityIs(mime, a, b, kb);
    QueryKeysDecide(a.queryKeys, b.queryKeys);
    hide Canon, PathGlob, Canonical, CanonicalQueryKeys, SameAuthority, SameGlob;
    if IdentityOf(mime, a, kb) == IdentityOf(mime, b, kb) { IdentityIsSound(mime, a, b, kb); }
  }

  /** On the globs the schemas let through, which have no run of stars, the ceilings and the colliding keys are left. */
  lemma {:induction false} IdentityIsCompleteWithoutRuns(mime: Mime, a: Route, b: Route, kb: int)
    requires IdentityOf(mime, a, kb).Ok? && IdentityOf(mime, b, kb).Ok? && NormalType(mime, "").None?
    requires NoStarRuns(Canon(a.path).value) && NoStarRuns(Canon(b.path).value)
    ensures (IdentityOf(mime, a, kb) == IdentityOf(mime, b, kb) <==> SameAuthority(mime, a, b, kb)) <==>
            (SameTuple(mime, a, b, kb) ==>
               EffectiveMaxBodyKB(a.maxBodyKB, kb) == EffectiveMaxBodyKB(b.maxBodyKB, kb)) &&
            !TooCoarse(mime, a, b, kb)
  {
    IdentityIsCompleteUpTo(mime, a, b, kb);
    CanonIs(a.path);
    CanonIs(b.path);
    CanonIdempotent(a.path);
    CanonIdempotent(b.path);
    CanonIs(Canon(a.path).value);
    CanonIs(Canon(b.path).value);
    hide Canon, SameAuthority, SameGlob, NoStarRuns, Normal;
    if SameTuple(mime, a, b, kb) { SameGlobWithoutRuns(Canon(a.path).value, Canon(b.path).value); }
  }

  /** The documented "iff" fails: ceilings of 65 and 66 KB under a 64 KB manifest are one authority. */
  lemma IdentityTooFine(mime: Mime)
    ensures var a := Route("s", "POST", [SLASH], "", "", None, "", 65);
            var b := a.(maxBodyKB := 66);
            IdentityOf(mime, a, 64).Ok? && IdentityOf(mime, b, 64).Ok? &&
            IdentityOf(mime, a, 64) != IdentityOf(mime, b, 64) && SameAuthority(mime, a, b, 64)
  {
    var a := Route("s", "POST", [SLASH], "", "", None, "", 65);
    RootIsCanonical();
  }

  /** It also fails for one glob spelled in two ways: a star and a run of stars. */
  lemma StarsTooFine(mime: Mime)
    requires NormalType(mime, "").None?
    ensures var a := Route("s", "GET", [SLASH, STAR], "", "", None, "", 0);
            var b := a.(path := [SLASH, STAR, STAR]);
            IdentityOf(mime, a, 64).Ok? && IdentityOf(mime, b, 64).Ok? &&
            IdentityOf(mime, a, 64) != IdentityOf(mime, b, 64) && SameAuthority(mime, a, b, 64)
  {
    var a := Route("s", "GET", [SLASH, STAR], "", "", None, "", 0);
    var b := a.(path := [SLASH, STAR, STAR]);
    StarsAreCanonical([STAR]);
    StarsAreCanonical([STAR, STAR]);
    assert a.path == [SLASH] + [STAR] && b.path == [SLASH] + [STAR, STAR];
    SameGlobOfStars();
    hide Canon, SameGlob, SameAuthority;
    AuthorityIs(mime, a, b, 64);
  }

  lemma SameGlobOfStars()
    ensures SameGlob([SLASH, STAR], [SLASH, STAR, STAR])
  {
    var one, two: Bytes := [STAR], [STAR, STAR];
    StarsAreCanonical(one);
    StarsAreCanonical(two);
    assert [SLASH, STAR] == [SLASH] + one && [SLASH, STAR, STAR] == [SLASH] + two;
    assert two[1..] == one && one[1..] == [];
  }

  /** Identity under kb decides requests judged under another ceiling just when that is no larger. */
  ghost predicate SoundUnder(mime: Mime, kb: int, enforced: int) {
    forall a, b, req, path, use |
      IdentityOf(mime, a, kb).Ok? && IdentityOf(mime, a, kb) == IdentityOf(mime, b, kb) &&
      SameKeys(a.queryKeys, b.queryKeys) && Canonical(path) ::
      Allows(mime, Granted(a), req, path, use, enforced) <==> Allows(mime, Granted(b), req, path, use, enforced)
  }

  lemma {:induction false} SoundUnderIff(mime: Mime, kb: int, enforced: int)
    ensures SoundUnder(mime, kb, enforced) <==> EnforcedKB(enforced) <= EnforcedKB(kb)
  {
    if EnforcedKB(enforced) <= EnforcedKB(kb) {
      forall a, b, req, path, use |
        IdentityOf(mime, a, kb).Ok? && IdentityOf(mime, a, kb) == IdentityOf(mime, b, kb) &&
        SameKeys(a.queryKeys, b.queryKeys) && Canonical(path)
        ensures Allows(mime, Granted(a), req, path, use, enforced) <==>
                Allows(mime, Granted(b), req, path, use, enforced)
      {
        IdentityIsSound(mime, a, b, kb);
      }
    } else {
      var a := Route("s", "POST", [SLASH], "", "", None, "", 0);
      var b := a.(maxBodyKB := EnforcedKB(kb));
      RootIsCanonical();
      var len := EnforcedKB(enforced) * 1024;
      ProbeAllowed(mime, a, {}, len, enforced);
      assert !BodyAllowed(b.maxBodyKB, enforced, len);
      assert !Allows(mime, Granted(b), Probe(a, {}, len), [SLASH], DATA, enforced);
      assert IdentityOf(mime, a, kb) == IdentityOf(mime, b, kb);
    }
  }
}
