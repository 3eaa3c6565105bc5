/**
  The approval transaction: limits reconciliation, Approve and ComputeDiff of internal/integrations.
 */
module Approval {
  import opened Text
  import opened RoutePath
  import opened Glob
  import opened Template
  import opened GlobLanguage
  import opened Authority
  import opened Options

  // ---------------------------------------------------------------- limits

  datatype Field =
    | CacheBytesKB | CacheEntries | ExprNodes | HostCalls | HttpRequests | InputMB | Iterations
    | JsonDepth | JsonNodes | MemoryMB | OutputKB | RequestBodyKB | ResponseMB | TimeoutMs

  const FIELD_ORDER: seq<Field> :=
    [CacheBytesKB, CacheEntries, ExprNodes, HostCalls, HttpRequests, InputMB, Iterations,
     JsonDepth, JsonNodes, MemoryMB, OutputKB, RequestBodyKB, ResponseMB, TimeoutMs]

  lemma FieldOrderComplete(f: Field)
    ensures f in FIELD_ORDER
  {
    assert FIELD_ORDER[0] == CacheBytesKB && FIELD_ORDER[1] == CacheEntries && FIELD_ORDER[2] == ExprNodes;
    assert FIELD_ORDER[3] == HostCalls && FIELD_ORDER[4] == HttpRequests && FIELD_ORDER[5] == InputMB;
    assert FIELD_ORDER[6] == Iterations && FIELD_ORDER[7] == JsonDepth && FIELD_ORDER[8] == JsonNodes;
    assert FIELD_ORDER[9] == MemoryMB && FIELD_ORDER[10] == OutputKB && FIELD_ORDER[11] == RequestBodyKB;
    assert FIELD_ORDER[12] == ResponseMB && FIELD_ORDER[13] == TimeoutMs;
  }

  function DefaultOf(f: Field): int {
    match f
    case CacheBytesKB => 256
    case CacheEntries => 64
    case ExprNodes => 512
    case HostCalls => 256
    case HttpRequests => 8
    case InputMB => 4
    case Iterations => 20000
    case JsonDepth => 32
    case JsonNodes => 200000
    case MemoryMB => 64
    case OutputKB => 64
    case RequestBodyKB => 64
    case ResponseMB => 4
    case TimeoutMs => 3000
  }

  function MaxOf(f: Field): int {
    match f
    case CacheBytesKB => 4096
    case CacheEntries => 512
    case ExprNodes => 4096
    case HostCalls => 2048
    case HttpRequests => 32
    case InputMB => 16
    case Iterations => 100000
    case JsonDepth => 64
    case JsonNodes => 1000000
    case MemoryMB => 256
    case OutputKB => 256
    case RequestBodyKB => 1024
    case ResponseMB => 16
    case TimeoutMs => 30000
  }

  /** Optional ceilings: an absent field is "not set". */
  type Limits = map<Field, int>

  /** The fully populated record; an absent field reads as Go's zero value. */
  type EffectiveLimits = map<Field, int>

  function EffectiveField(e: EffectiveLimits, f: Field): int {
    if f in e then e[f] else 0
  }

  function Requested(f: Field, m: Limits): int {
    var v := if f in m then m[f] else DefaultOf(f);
    if v > MaxOf(f) then MaxOf(f) else v
  }

  function EffectiveLimit(f: Field, manifest: Limits, approved: Limits): int {
    var m, a := Requested(f, manifest), Requested(f, approved);
    if a < m then a else m
  }

  function Reconciled(manifest: Limits, approved: Limits): (e: EffectiveLimits)
    ensures forall f :: f in e && e[f] == EffectiveLimit(f, manifest, approved)
  {
    forall f ensures f in FIELD_ORDER { FieldOrderComplete(f); }
    map f | f in FIELD_ORDER :: EffectiveLimit(f, manifest, approved)
  }

  method ReconcileAtApproval(manifest: Limits, approved: Limits) returns (out: EffectiveLimits)
    ensures out == Reconciled(manifest, approved)
    ensures forall f :: out[f] <= Requested(f, manifest) && out[f] <= Requested(f, approved) && out[f] <= MaxOf(f)
  {
    out := map[];
    for i := 0 to |FIELD_ORDER|
      invariant forall f :: f in out <==> f in FIELD_ORDER[..i]
      invariant forall f | f in out :: out[f] == EffectiveLimit(f, manifest, approved)
    {
      out := out[FIELD_ORDER[i] := EffectiveLimit(FIELD_ORDER[i], manifest, approved)];
    }
    assert FIELD_ORDER[..|FIELD_ORDER|] == FIELD_ORDER;
    forall f ensures f in out { FieldOrderComplete(f); }
    assert out == Reconciled(manifest, approved);
  }

  // ---------------------------------------------------------------- the records

  datatype Manifest = Manifest(
    digest: string, version: string, capabilities: seq<string>, routes: seq<Route>, limits: Limits)

  datatype Grants = Grants(capabilities: seq<string>, routes: seq<Route>, limits: Limits)

  datatype LockEntry = LockEntry(
    manifestDigest: string, version: string, approvedBy: string, approvedAt: int,
    capabilities: seq<string>, routes: seq<Route>, limits: Option<Limits>, effective: EffectiveLimits)

  datatype ApproveError = DigestChanged | ExceedsCapability | ExceedsRoute | ExceedsLimit | BadRoute(error: RouteError)

  function Identifier(mime: Mime, kb: int): Route -> Result<Identity, RouteError> {
    r => IdentityOf(mime, r, kb)
  }

  function Identities(mime: Mime, routes: seq<Route>, kb: int): Result<seq<Identity>, RouteError>
  {
    var f := Identifier(mime, kb);
    assert forall i | 0 <= i < |routes| :: f(routes[i]) == IdentityOf(mime, routes[i], kb);
    TryMap(f, routes)
  }

  function Members<T>(xs: seq<T>): set<T> { set x | x in xs }

  method IdentitySet(mime: Mime, routes: seq<Route>, kb: int) returns (r: Result<set<Identity>, RouteError>)
    ensures var ids := Identities(mime, routes, kb);
            r == if ids.Err? then Err(ids.error) else Ok(Members(ids.value))
  {
    hide IdentityOf;
    var out: set<Identity> := {};
    ghost var ids: seq<Identity> := [];
    ghost var f := Identifier(mime, kb);
    TryStart(f, routes);
    for i := 0 to |routes|
      invariant TrySoFar(f, routes, i, ids)
      invariant out == Members(ids)
    {
      TryStep(f, routes, i, ids);
      var id := IdentityOf(mime, routes[i], kb);
      if id.Err? { return Err(id.error); }
      ids := ids + [id.value];
      out := out + {id.value};
    }
    TryEnd(f, routes, ids);
    return Ok(out);
  }

  // ---------------------------------------------------------------- Approve

  ghost predicate RouteRequested(mime: Mime, m: Manifest, r: Route) {
    var kb := Requested(RequestBodyKB, m.limits);
    IdentityOf(mime, r, kb).Ok? &&
    exists i :: 0 <= i < |m.routes| && IdentityOf(mime, m.routes[i], kb) == IdentityOf(mime, r, kb)
  }

  /** The grant asks for nothing the manifest does not. */
  ghost predicate WithinRequest(mime: Mime, m: Manifest, g: Grants) {
    (forall c | c in g.capabilities :: c in m.capabilities) &&
    (forall i | 0 <= i < |g.routes| :: RouteRequested(mime, m, g.routes[i])) &&
    (forall f | f in g.limits :: g.limits[f] <= Requested(f, m.limits))
  }

  function WithoutReasons(routes: seq<Route>): seq<Route>
  {
    seq(|routes|, i requires 0 <= i < |routes| => routes[i].(reason := ""))
  }

  function EntryOf(m: Manifest, g: Grants, who: string, now: int): LockEntry {
    LockEntry(m.digest, m.version, who, now, g.capabilities, WithoutReasons(g.routes),
              if g.limits == map[] then None else Some(g.limits), Reconciled(m.limits, g.limits))
  }

  ghost predicate RoutesHaveIdentity(mime: Mime, routes: seq<Route>, kb: int) {
    forall i | 0 <= i < |routes| :: IdentityOf(mime, routes[i], kb).Ok?
  }

  /** Approves exactly a digest-current grant within the request; the entry records just that grant. */
  method Approve(mime: Mime, m: Manifest, expected: string, g: Grants, who: string, now: int)
    returns (r: Result<LockEntry, ApproveError>)
    ensures r.Ok? <==>
            m.digest == expected && RoutesHaveIdentity(mime, m.routes, Requested(RequestBodyKB, m.limits)) &&
            WithinRequest(mime, m, g)
    ensures r.Ok? ==> r.value == EntryOf(m, g, who, now)
  {
    hide IdentityOf;
    if m.digest != expected { return Err(DigestChanged); }
    for i := 0 to |g.capabilities|
      invariant forall j | 0 <= j < i :: g.capabilities[j] in m.capabilities
    {
      if g.capabilities[i] !in m.capabilities { return Err(ExceedsCapability); }
    }
    var kb := Requested(RequestBodyKB, m.limits);
    var manifestRoutes := IdentitySet(mime, m.routes, kb);
    if manifestRoutes.Err? { return Err(BadRoute(manifestRoutes.error)); }
    for i := 0 to |g.routes|
      invariant forall j | 0 <= j < i :: RouteRequested(mime, m, g.routes[j])
    {
      var id := IdentityOf(mime, g.routes[i], kb);
      if id.Err? { assert !RouteRequested(mime, m, g.routes[i]); return Err(ExceedsRoute); }
      if id.value !in manifestRoutes.value { assert !RouteRequested(mime, m, g.routes[i]); return Err(ExceedsRoute); }
    }
    var limitsOk := LimitsWithin(m, g);
    if !limitsOk { return Err(ExceedsLimit); }
    var lockRoutes: seq<Route> := [];
    for i := 0 to |g.routes|
      invariant lockRoutes == WithoutReasons(g.routes)[..i]
    {
      lockRoutes := lockRoutes + [g.routes[i].(reason := "")];
    }
    var effective := ReconcileAtApproval(m.limits, g.limits);
    var entry := LockEntry(m.digest, m.version, who, now, g.capabilities, lockRoutes, None, effective);
    if g.limits != map[] { entry := entry.(limits := Some(g.limits)); }
    return Ok(entry);
  }

  method LimitsWithin(m: Manifest, g: Grants) returns (ok: bool)
    ensures ok <==> forall f | f in g.limits :: g.limits[f] <= Requested(f, m.limits)
  {
    for i := 0 to |FIELD_ORDER|
      invariant forall j | 0 <= j < i ::
                  FIELD_ORDER[j] in g.limits ==> g.limits[FIELD_ORDER[j]] <= Requested(FIELD_ORDER[j], m.limits)
    {
      var name := FIELD_ORDER[i];
      if name in g.limits && g.limits[name] > Requested(name, m.limits) { return false; }
    }
    forall f | f in g.limits ensures g.limits[f] <= Requested(f, m.limits) {
      FieldOrderComplete(f);
      var j :| 0 <= j < |FIELD_ORDER| && FIELD_ORDER[j] == f;
    }
    return true;
  }

  // ---------------------------------------------------------------- approval never widens

  /** A manifest route of the granted route's identity declares every query key it does. */
  ghost predicate RouteKeysKept(mime: Mime, m: Manifest, r: Route) {
    var kb := Requested(RequestBodyKB, m.limits);
    exists i :: 0 <= i < |m.routes| && IdentityOf(mime, m.routes[i], kb) == IdentityOf(mime, r, kb) &&
                KeysWithin(r.queryKeys, m.routes[i].queryKeys)
  }

  ghost predicate KeysKept(mime: Mime, m: Manifest, g: Grants) {
    forall i | 0 <= i < |g.routes| :: RouteKeysKept(mime, m, g.routes[i])
  }

  ghost predicate AllPlainKeys(routes: seq<Route>) {
    forall i | 0 <= i < |routes| :: PlainKeys(routes[i].queryKeys)
  }

  /** Keys that are non-empty and free of NUL are kept by every grant within the request. */
  lemma {:induction false} PlainKeysKept(mime: Mime, m: Manifest, g: Grants)
    requires WithinRequest(mime, m, g) && AllPlainKeys(m.routes) && AllPlainKeys(g.routes)
    ensures KeysKept(mime, m, g)
  {
    var kb := Requested(RequestBodyKB, m.limits);
    forall i | 0 <= i < |g.routes| ensures RouteKeysKept(mime, m, g.routes[i]) {
      hide IdentityOf, PlainKeys, SameAuthority;
      assert RouteRequested(mime, m, g.routes[i]);
      var k :| 0 <= k < |m.routes| && IdentityOf(mime, m.routes[k], kb) == IdentityOf(mime, g.routes[i], kb);
      IdentityIsSound(mime, g.routes[i], m.routes[k], kb);
    }
  }

  function GrantedAll(routes: seq<Route>): seq<Route>
  {
    seq(|routes|, i requires 0 <= i < |routes| => Granted(routes[i]))
  }

  /** Routes of one identity have one ceiling, under any limit no larger than the manifest's. */
  lemma OneCeiling(mime: Mime, a: Route, b: Route, R: int, kb: int)
    requires IdentityOf(mime, a, R).Ok? && IdentityOf(mime, a, R) == IdentityOf(mime, b, R)
    requires EnforcedKB(kb) <= EnforcedKB(R)
    ensures CeilingKB(a.maxBodyKB, kb) == CeilingKB(b.maxBodyKB, kb)
  {
  }

  /**
    Whatever an approved entry's routes permit, the manifest's routes permit, under any body ceiling
    no larger than the manifest's, as long as the grant keeps to the manifest's query keys.
   */
  lemma {:induction false} ApprovalNeverWidens(
      mime: Mime, m: Manifest, g: Grants, who: string, now: int, req: Request, path: Bytes, use: string, kb: int)
    requires WithinRequest(mime, m, g) && KeysKept(mime, m, g) && Canonical(path)
    requires EnforcedKB(kb) <= EnforcedKB(Requested(RequestBodyKB, m.limits))
    requires SomeRouteAllows(mime, GrantedAll(EntryOf(m, g, who, now).routes), req, path, use, kb)
    ensures SomeRouteAllows(mime, GrantedAll(m.routes), req, path, use, kb)
  {
    hide Allows, IdentityOf, Canonical, KeysWithin;
    var lock := EntryOf(m, g, who, now).routes;
    var i :| 0 <= i < |lock| && Allows(mime, GrantedAll(lock)[i], req, path, use, kb);
    assert Granted(lock[i]) == Granted(g.routes[i]);
    assert RouteRequested(mime, m, g.routes[i]) && RouteKeysKept(mime, m, g.routes[i]);
    var R := Requested(RequestBodyKB, m.limits);
    var k :| 0 <= k < |m.routes| && IdentityOf(mime, m.routes[k], R) == IdentityOf(mime, g.routes[i], R) &&
             KeysWithin(g.routes[i].queryKeys, m.routes[k].queryKeys);
    OneCeiling(mime, g.routes[i], m.routes[k], R, kb);
    OneIdentityNarrows(mime, g.routes[i], m.routes[k], R, kb);
    assert Allows(mime, GrantedAll(m.routes)[k], req, path, use, kb);
  }

  /** The grant sets a positive body limit, or the manifest's own request enforces at least the default. */
  predicate BodyGrantSafe(requested: Limits, granted: Limits) {
    var R := Requested(RequestBodyKB, requested);
    Requested(RequestBodyKB, granted) >= 1 || R <= 0 || R >= CORE_DEFAULT_BODY_KB
  }

  /** The entry's own ceiling qualifies exactly unless a non-positive grant meets a request below 64 KB. */
  lemma EntryCeilingQualifies(requested: Limits, granted: Limits)
    ensures EnforcedKB(Reconciled(requested, granted)[RequestBodyKB]) <=
            EnforcedKB(Requested(RequestBodyKB, requested)) <==>
            BodyGrantSafe(requested, granted)
  {
  }

  /** The request a zero grant adds: one byte more than the manifest's route takes. */
  lemma {:induction false} ZeroBodyGrantWidens(mime: Mime, requested: Limits, granted: Limits)
    requires forall f | f in granted :: granted[f] <= Requested(f, requested)
    requires !BodyGrantSafe(requested, granted)
    ensures var R := Requested(RequestBodyKB, requested);
            var route := Route("s", "POST", [SLASH], "", "", None, "", R);
            var m := Manifest("d", "1", [], [route], requested);
            var g := Grants([], [route.(maxBodyKB := 0)], granted);
            var entry := EntryOf(m, g, "", 0);
            var req := Request("s", "POST", [SLASH], map[], map[], R * 1024 + 1, 0);
            WithinRequest(mime, m, g) &&
            SomeRouteAllows(mime, GrantedAll(entry.routes), req, [SLASH], DATA, entry.effective[RequestBodyKB]) &&
            !SomeRouteAllows(mime, GrantedAll(m.routes), req, [SLASH], DATA, entry.effective[RequestBodyKB])
  {
    var R := Requested(RequestBodyKB, requested);
    var route := Route("s", "POST", [SLASH], "", "", None, "", R);
    var wide := route.(maxBodyKB := 0);
    var m := Manifest("d", "1", [], [route], requested);
    var g := Grants([], [wide], granted);
    var entry := EntryOf(m, g, "", 0);
    var E := entry.effective[RequestBodyKB];
    var req := Request("s", "POST", [SLASH], map[], map[], R * 1024 + 1, 0);
    RootIsCanonical();
    GlobMatchesItself([SLASH]);
    hide PathGlob, Canon, Reconciled;
    assert IdentityOf(mime, route, R).Ok? && IdentityOf(mime, route, R) == IdentityOf(mime, wide, R);
    assert RouteRequested(mime, m, g.routes[0]) by { assert m.routes[0] == route; }
    assert EnforcedKB(E) == CORE_DEFAULT_BODY_KB;
    assert Allows(mime, GrantedAll(entry.routes)[0], req, [SLASH], DATA, E);
    assert !BodyAllowed(R, E, BodyLen(req));
  }

  /** At the ceiling it records, the entry permits nothing the manifest does not. */
  ghost predicate EntryWithin(mime: Mime, m: Manifest, g: Grants) {
    var kb := Reconciled(m.limits, g.limits)[RequestBodyKB];
    forall req, path, use |
      Canonical(path) && SomeRouteAllows(mime, GrantedAll(EntryOf(m, g, "", 0).routes), req, path, use, kb) ::
      SomeRouteAllows(mime, GrantedAll(m.routes), req, path, use, kb)
  }

  /** Under these limits no approval that keeps the query keys permits what the manifest does not. */
  ghost predicate NeverWidens(mime: Mime, requested: Limits, granted: Limits) {
    forall m: Manifest, g: Grants |
      m.limits == requested && g.limits == granted && WithinRequest(mime, m, g) && KeysKept(mime, m, g) ::
      EntryWithin(mime, m, g)
  }

  /**
    With the query keys kept, approval never widens exactly when the body limit granted is positive
    or the one requested is not below the default.
   */
  lemma {:induction false} NeverWidensIff(mime: Mime, requested: Limits, granted: Limits)
    requires forall f | f in granted :: granted[f] <= Requested(f, requested)
    ensures NeverWidens(mime, requested, granted) <==> BodyGrantSafe(requested, granted)
  {
    if BodyGrantSafe(requested, granted) {
      hide WithinRequest, KeysKept, EntryWithin;
      forall m: Manifest, g: Grants |
        m.limits == requested && g.limits == granted && WithinRequest(mime, m, g) && KeysKept(mime, m, g)
        ensures EntryWithin(mime, m, g)
      {
        SafeEntryWithin(mime, m, g);
      }
    } else {
      ZeroBodyGrantWidens(mime, requested, granted);
      RootIsCanonical();
      var R := Requested(RequestBodyKB, requested);
      var route := Route("s", "POST", [SLASH], "", "", None, "", R);
      var m := Manifest("d", "1", [], [route], requested);
      var g := Grants([], [route.(maxBodyKB := 0)], granted);
      hide SomeRouteAllows, GrantedAll, Reconciled, Canonical, Requested, IdentityOf;
      assert AllPlainKeys(m.routes) && AllPlainKeys(g.routes);
      PlainKeysKept(mime, m, g);
      assert EntryOf(m, g, "", 0).effective == Reconciled(requested, granted);
      assert !EntryWithin(mime, m, g);
    }
  }

  lemma {:induction false} SafeEntryWithin(mime: Mime, m: Manifest, g: Grants)
    requires WithinRequest(mime, m, g) && KeysKept(mime, m, g) && BodyGrantSafe(m.limits, g.limits)
    ensures EntryWithin(mime, m, g)
  {
    EntryCeilingQualifies(m.limits, g.limits);
    hide WithinRequest, KeysKept, Canonical, SomeRouteAllows, GrantedAll, Reconciled, Requested;
    var kb := Reconciled(m.limits, g.limits)[RequestBodyKB];
    forall req, path, use |
      Canonical(path) && SomeRouteAllows(mime, GrantedAll(EntryOf(m, g, "", 0).routes), req, path, use, kb)
      ensures SomeRouteAllows(mime, GrantedAll(m.routes), req, path, use, kb)
    {
      ApprovalNeverWidens(mime, m, g, "", 0, req, path, use, kb);
    }
  }

  /**
    Without that, approval widens whatever the limits: key lists that share a text are one identity,
    so a grant may list a key the manifest's route does not.
   */
  lemma {:induction false} CollidingKeysWiden(
      mime: Mime, requested: Limits, granted: Limits,
      narrow: Option<seq<Bytes>>, wide: Option<seq<Bytes>>, query: map<Bytes, Bytes>)
    requires forall f | f in granted :: granted[f] <= Requested(f, requested)
    requires CanonicalQueryKeys(narrow) == CanonicalQueryKeys(wide)
    requires QueryAllowed(wide, query) && !QueryAllowed(narrow, query)
    ensures var route := Route("s", "GET", [SLASH], "", "", narrow, "", 0);
            var m := Manifest("d", "1", [], [route], requested);
            var g := Grants([], [route.(queryKeys := wide)], granted);
            var entry := EntryOf(m, g, "", 0);
            var req := Request("s", "GET", [SLASH], query, map[], 0, 0);
            WithinRequest(mime, m, g) &&
            SomeRouteAllows(mime, GrantedAll(entry.routes), req, [SLASH], DATA, entry.effective[RequestBodyKB]) &&
            !SomeRouteAllows(mime, GrantedAll(m.routes), req, [SLASH], DATA, entry.effective[RequestBodyKB])
  {
    var route := Route("s", "GET", [SLASH], "", "", narrow, "", 0);
    var other := route.(queryKeys := wide);
    var m := Manifest("d", "1", [], [route], requested);
    var g := Grants([], [other], granted);
    var entry := EntryOf(m, g, "", 0);
    var R, E := Requested(RequestBodyKB, requested), entry.effective[RequestBodyKB];
    var req := Request("s", "GET", [SLASH], query, map[], 0, 0);
    hide Canonical, Reconciled, CanonicalQueryKeys, Requested, QueryAllowed, Allows, IdentityOf, Granted,
         SomeRouteAllows, WithinRequest, GrantedAll, WithoutReasons;
    KeysAlone(mime, narrow, wide, query, R, E);
    OneForOne(mime, m, g, route, other);
    assert entry.routes == [other] by { hide *; OnlyRoute(other); }
    OneRouteAllows(mime, route, req, [SLASH], DATA, E);
    OneRouteAllows(mime, other, req, [SLASH], DATA, E);
  }

  lemma OneForOne(mime: Mime, m: Manifest, g: Grants, route: Route, other: Route)
    requires m.routes == [route] && g.routes == [other] && g.capabilities == []
    requires forall f | f in g.limits :: g.limits[f] <= Requested(f, m.limits)
    requires var R := Requested(RequestBodyKB, m.limits);
             IdentityOf(mime, route, R).Ok? && IdentityOf(mime, route, R) == IdentityOf(mime, other, R)
    ensures WithinRequest(mime, m, g)
  {
    hide IdentityOf, Requested;
    assert RouteRequested(mime, m, g.routes[0]) by { assert m.routes[0] == route; }
  }

  lemma OnlyRoute(r: Route)
    requires r.reason == ""
    ensures WithoutReasons([r]) == [r]
  {
  }

  lemma OneRouteAllows(mime: Mime, r: Route, req: Request, path: Bytes, use: string, kb: int)
    ensures SomeRouteAllows(mime, GrantedAll([r]), req, path, use, kb) <==> Allows(mime, Granted(r), req, path, use, kb)
  {
    hide Allows, Granted;
    assert GrantedAll([r])[0] == Granted(r);
  }

  /** A body-free request to the root is decided by its query alone. */
  lemma {:induction false} KeysAlone(
      mime: Mime, narrow: Option<seq<Bytes>>, wide: Option<seq<Bytes>>, query: map<Bytes, Bytes>, R: int, E: int)
    requires CanonicalQueryKeys(narrow) == CanonicalQueryKeys(wide)
    ensures var route := Route("s", "GET", [SLASH], "", "", narrow, "", 0);
            var other := route.(queryKeys := wide);
            var req := Request("s", "GET", [SLASH], query, map[], 0, 0);
            IdentityOf(mime, route, R).Ok? && IdentityOf(mime, route, R) == IdentityOf(mime, other, R) &&
            (Allows(mime, Granted(route), req, [SLASH], DATA, E) <==> QueryAllowed(narrow, query)) &&
            (Allows(mime, Granted(other), req, [SLASH], DATA, E) <==> QueryAllowed(wide, query))
  {
    RootIsCanonical();
    GlobMatchesItself([SLASH]);
    hide PathGlob, Canon, CanonicalQueryKeys, QueryAllowed;
  }

  /** Such a pair under every limits: a manifest route without query keys, granted with the empty key. */
  lemma EmptyKeyWidens(mime: Mime, requested: Limits, granted: Limits)
    requires forall f | f in granted :: granted[f] <= Requested(f, requested)
    ensures var route := Route("s", "GET", [SLASH], "", "", Some([]), "", 0);
            var m := Manifest("d", "1", [], [route], requested);
            var g := Grants([], [route.(queryKeys := Some([[]]))], granted);
            WithinRequest(mime, m, g) && !EntryWithin(mime, m, g)
  {
    EmptyKeyCollides();
    CollidingKeysWiden(mime, requested, granted, Some([]), Some([[]]), map[[] := []]);
    RootIsCanonical();
    hide WithinRequest, SomeRouteAllows, GrantedAll, Reconciled, Canonical, CanonicalQueryKeys, QueryAllowed;
    var route := Route("s", "GET", [SLASH], "", "", Some([]), "", 0);
    var m := Manifest("d", "1", [], [route], requested);
    var g := Grants([], [route.(queryKeys := Some([[]]))], granted);
    assert EntryOf(m, g, "", 0).effective == Reconciled(requested, granted);
  }

  /**
    Approval by approval, whatever the manifest: the entry permits nothing the manifest does not
    exactly when every granted route is subsumed by one manifest route, at the ceiling recorded.
   */
  lemma {:induction false} EntryWithinIff(mime: Mime, m: Manifest, g: Grants)
    requires RoutesHaveIdentity(mime, g.routes, Requested(RequestBodyKB, m.limits)) && NormalType(mime, "").None?
    ensures var kb := Reconciled(m.limits, g.limits)[RequestBodyKB];
            EntryWithin(mime, m, g) <==>
            forall i | 0 <= i < |g.routes| :: SubsumedByOne(mime, g.routes[i], m.routes, kb)
  {
    hide Jointly, Canonical, Reconciled, SubsumedByOne, EntryWithin;
    var R, kb := Requested(RequestBodyKB, m.limits), Reconciled(m.limits, g.limits)[RequestBodyKB];
    forall i | 0 <= i < |g.routes|
      ensures Jointly(mime, g.routes[i], m.routes, kb) <==> SubsumedByOne(mime, g.routes[i], m.routes, kb)
    {
      assert IdentityOf(mime, g.routes[i], R).Ok?;
      assert IdentityOf(mime, g.routes[i], kb).Ok? by { hide Canon; }
      hide IdentityOf;
      CoveredByRoutesIff(mime, g.routes[i], m.routes, kb);
    }
    hide IdentityOf;
    WithinIsJointly(mime, m, g);
  }

  lemma {:induction false} WithinIsJointly(mime: Mime, m: Manifest, g: Grants)
    ensures EntryWithin(mime, m, g) <==>
            forall i | 0 <= i < |g.routes| ::
              Jointly(mime, g.routes[i], m.routes, Reconciled(m.limits, g.limits)[RequestBodyKB])
  {
    hide Allows, Canonical, Reconciled, GrantedAll;
    var kb, lock := Reconciled(m.limits, g.limits)[RequestBodyKB], EntryOf(m, g, "", 0).routes;
    forall i | 0 <= i < |lock| ensures Granted(lock[i]) == Granted(g.routes[i]) { }
    forall req, path, use
      ensures SomeRouteAllows(mime, GrantedAll(lock), req, path, use, kb) <==>
              exists i :: 0 <= i < |g.routes| && Allows(mime, Granted(g.routes[i]), req, path, use, kb)
      ensures SomeRouteAllows(mime, GrantedAll(m.routes), req, path, use, kb) <==>
              exists k :: 0 <= k < |m.routes| && Allows(mime, Granted(m.routes[k]), req, path, use, kb)
    {
      AllowsEach(mime, lock, req, path, use, kb);
      AllowsEach(mime, m.routes, req, path, use, kb);
      hide Granted;
      if i :| 0 <= i < |g.routes| && Allows(mime, Granted(g.routes[i]), req, path, use, kb) {
        assert Allows(mime, Granted(lock[i]), req, path, use, kb);
      }
    }
    hide Granted, SomeRouteAllows, EntryOf;
    if EntryWithin(mime, m, g) {
      forall i | 0 <= i < |g.routes| ensures Jointly(mime, g.routes[i], m.routes, kb) {
        forall req, path, use | Canonical(path) && Allows(mime, Granted(g.routes[i]), req, path, use, kb)
          ensures exists k :: 0 <= k < |m.routes| && Allows(mime, Granted(m.routes[k]), req, path, use, kb)
        {
          assert SomeRouteAllows(mime, GrantedAll(lock), req, path, use, kb);
          assert SomeRouteAllows(mime, GrantedAll(m.routes), req, path, use, kb);
        }
      }
    }
    if forall i | 0 <= i < |g.routes| :: Jointly(mime, g.routes[i], m.routes, kb) {
      assert EntryWithin(mime, m, g);
    }
  }

  lemma AllowsEach(mime: Mime, routes: seq<Route>, req: Request, path: Bytes, use: string, kb: int)
    ensures SomeRouteAllows(mime, GrantedAll(routes), req, path, use, kb) <==>
            exists k :: 0 <= k < |routes| && Allows(mime, Granted(routes[k]), req, path, use, kb)
  {
    hide Allows, Granted;
    forall k | 0 <= k < |routes| ensures GrantedAll(routes)[k] == Granted(routes[k]) { }
    if k :| 0 <= k < |routes| && Allows(mime, Granted(routes[k]), req, path, use, kb) {
      assert Allows(mime, GrantedAll(routes)[k], req, path, use, kb);
    }
  }

  /** No two routes answer the same slot, method and use. */
  predicate Apart(routes: seq<Route>) {
    forall i, j | 0 <= i < j < |routes| ::
      !(routes[i].slot == routes[j].slot && routes[i].verb == routes[j].verb &&
        UseOf(routes[i].use) == UseOf(routes[j].use))
  }

  /**
    For a manifest whose routes lie apart, as a single route does, that is to keep to the query keys
    and the body ceiling of the one route with the same identity.
   */
  lemma {:induction false} ApartWithinIff(mime: Mime, m: Manifest, g: Grants)
    requires Apart(m.routes) && WithinRequest(mime, m, g)
    ensures var R, kb := Requested(RequestBodyKB, m.limits), Reconciled(m.limits, g.limits)[RequestBodyKB];
            EntryWithin(mime, m, g) <==>
            forall i, k | 0 <= i < |g.routes| && 0 <= k < |m.routes| &&
                          IdentityOf(mime, g.routes[i], R) == IdentityOf(mime, m.routes[k], R) ::
              KeysWithin(g.routes[i].queryKeys, m.routes[k].queryKeys) &&
              CeilingKB(g.routes[i].maxBodyKB, kb) <= CeilingKB(m.routes[k].maxBodyKB, kb)
  {
    hide Jointly, Canonical, KeysWithin, CeilingKB, Reconciled, IdentityOf, EntryWithin;
    var R, kb := Requested(RequestBodyKB, m.limits), Reconciled(m.limits, g.limits)[RequestBodyKB];
    forall i, k | 0 <= i < |g.routes| && 0 <= k < |m.routes| &&
                  IdentityOf(mime, g.routes[i], R) == IdentityOf(mime, m.routes[k], R)
      ensures Jointly(mime, g.routes[i], m.routes, kb) <==>
              KeysWithin(g.routes[i].queryKeys, m.routes[k].queryKeys) &&
              CeilingKB(g.routes[i].maxBodyKB, kb) <= CeilingKB(m.routes[k].maxBodyKB, kb)
    {
      assert RouteRequested(mime, m, g.routes[i]);
      ApartJointly(mime, g.routes[i], m.routes, k, R, kb);
    }
    forall i | 0 <= i < |g.routes|
      ensures exists k :: 0 <= k < |m.routes| && IdentityOf(mime, g.routes[i], R) == IdentityOf(mime, m.routes[k], R)
    {
      assert RouteRequested(mime, m, g.routes[i]);
    }
    WithinIsJointly(mime, m, g);
  }

  lemma {:induction false} ApartJointly(mime: Mime, a: Route, routes: seq<Route>, k: nat, R: int, kb: int)
    requires Apart(routes) && k < |routes|
    requires IdentityOf(mime, a, R).Ok? && IdentityOf(mime, a, R) == IdentityOf(mime, routes[k], R)
    ensures Jointly(mime, a, routes, kb) <==>
            KeysWithin(a.queryKeys, routes[k].queryKeys) &&
            CeilingKB(a.maxBodyKB, kb) <= CeilingKB(routes[k].maxBodyKB, kb)
  {
    OneIdentityNarrows(mime, a, routes[k], R, kb);
    assert IdentityOf(mime, a, kb).Ok? && a.slot == routes[k].slot && a.verb == routes[k].verb &&
           UseOf(a.use) == UseOf(routes[k].use) by { hide Canon; }
    hide Canonical, Canon, Allows, IdentityOf, KeysWithin, CeilingKB, PathGlob, Granted;
    if Jointly(mime, a, routes, kb) {
      var req := WidestProbe(mime, a, routes, kb);
      var i :| 0 <= i < |routes| && Allows(mime, Granted(routes[i]), req, Canon(a.path).value, UseOf(a.use), kb);
      assert Spans(a, routes[i], kb);
      assert i == k;
    }
  }

  // ---------------------------------------------------------------- the diff

  datatype LimitDiff = LimitDiff(field: Field, current: int, requested: int)

  datatype Diff = Diff(
    addedRoutes: seq<Route>, removedRoutes: seq<Route>, addedCapabilities: seq<string>,
    raisedLimits: seq<LimitDiff>, bodyBearing: seq<Route>)

  predicate Empty(d: Diff) {
    |d.addedRoutes| == 0 && |d.removedRoutes| == 0 && |d.addedCapabilities| == 0 && |d.raisedLimits| == 0
  }

  predicate BodyBearing(verb: string) { verb in {"POST", "PUT", "PATCH"} }

  function LockRoutes(entry: Option<LockEntry>): seq<Route> { if entry.Some? then entry.value.routes else [] }

  function LockCaps(entry: Option<LockEntry>): seq<string> { if entry.Some? then entry.value.capabilities else [] }

  function LockLimits(entry: Option<LockEntry>): EffectiveLimits {
    if entry.Some? then entry.value.effective else map[]
  }

  function NotIn(mime: Mime, kb: int, ids: seq<Identity>): Route -> bool {
    r => !(IdentityOf(mime, r, kb).Ok? && IdentityOf(mime, r, kb).value in ids)
  }

  function Absent(caps: seq<string>): string -> bool { c => c !in caps }

  function Bearing(r: Route): bool { BodyBearing(r.verb) }

  function RaisedOf(fields: seq<Field>, m: Limits, e: EffectiveLimits): (out: seq<LimitDiff>)
    ensures out == [] <==> forall i | 0 <= i < |fields| :: Requested(fields[i], m) <= EffectiveField(e, fields[i])
  {
    if fields == [] then []
    else
      var n := |fields| - 1;
      var req, cur := Requested(fields[n], m), EffectiveField(e, fields[n]);
      RaisedOf(fields[..n], m, e) + if req > cur then [LimitDiff(fields[n], cur, req)] else []
  }

  /** What ComputeDiff reports. */
  function DiffOf(mime: Mime, m: Manifest, entry: Option<LockEntry>): Result<Diff, RouteError> {
    var R, L := Requested(RequestBodyKB, m.limits), EffectiveField(LockLimits(entry), RequestBodyKB);
    var ms, ls := Identities(mime, m.routes, R), Identities(mime, LockRoutes(entry), L);
    if ms.Err? then Err(ms.error)
    else if ls.Err? then Err(ls.error)
    else
      Ok(Diff(Filter(NotIn(mime, R, ls.value), m.routes), Filter(NotIn(mime, L, ms.value), LockRoutes(entry)),
              Filter(Absent(LockCaps(entry)), m.capabilities), RaisedOf(FIELD_ORDER, m.limits, LockLimits(entry)),
              Filter(Bearing, m.routes)))
  }

  method SelectRoutes(mime: Mime, routes: seq<Route>, kb: int, ids: set<Identity>, ghost idSeq: seq<Identity>)
    returns (out: seq<Route>, bearing: seq<Route>)
    requires RoutesHaveIdentity(mime, routes, kb) && ids == Members(idSeq)
    ensures out == Filter(NotIn(mime, kb, idSeq), routes)
    ensures bearing == Filter(Bearing, routes)
  {
    hide IdentityOf, Filter, RoutesHaveIdentity;
    out, bearing := [], [];
    ghost var p := NotIn(mime, kb, idSeq);
    for i := 0 to |routes|
      invariant out == Filter(p, routes[..i])
      invariant bearing == Filter(Bearing, routes[..i])
    {
      FilterStep(p, routes, i);
      FilterStep(Bearing, routes, i);
      assert IdentityOf(mime, routes[i], kb).Ok? by { HasIdentity(mime, routes, kb, i); }
      var id := IdentityOf(mime, routes[i], kb);
      assert p(routes[i]) <==> id.value !in ids;
      if id.value !in ids { out := out + [routes[i]]; }
      if BodyBearing(routes[i].verb) { bearing := bearing + [routes[i]]; }
    }
    assert routes[..|routes|] == routes;
  }

  lemma HasIdentity(mime: Mime, routes: seq<Route>, kb: int, i: nat)
    requires RoutesHaveIdentity(mime, routes, kb) && i < |routes|
    ensures IdentityOf(mime, routes[i], kb).Ok?
  {
  }

  method ComputeDiff(mime: Mime, m: Manifest, entry: Option<LockEntry>) returns (r: Result<Diff, RouteError>)
    ensures r == DiffOf(mime, m, entry)
  {
    hide IdentityOf;
    var manifestKB := Requested(RequestBodyKB, m.limits);
    var lockRoutes, lockCaps, effective := LockRoutes(entry), LockCaps(entry), LockLimits(entry);
    var lockKB := EffectiveField(effective, RequestBodyKB);
    var manifestSet := IdentitySet(mime, m.routes, manifestKB);
    if manifestSet.Err? { return Err(manifestSet.error); }
    var lockSet := IdentitySet(mime, lockRoutes, lockKB);
    if lockSet.Err? { return Err(lockSet.error); }
    ghost var ms, ls := Identities(mime, m.routes, manifestKB).value, Identities(mime, lockRoutes, lockKB).value;
    var added, bearing := SelectRoutes(mime, m.routes, manifestKB, lockSet.value, ls);
    var removed, _ := SelectRoutes(mime, lockRoutes, lockKB, manifestSet.value, ms);
    var caps := SelectCaps(m.capabilities, lockCaps);
    var raised := SelectLimits(m.limits, effective);
    return Ok(Diff(added, removed, caps, raised, bearing));
  }

  method SelectCaps(caps: seq<string>, lock: seq<string>) returns (out: seq<string>)
    ensures out == Filter(Absent(lock), caps)
  {
    out := [];
    ghost var p := Absent(lock);
    for i := 0 to |caps|
      invariant out == Filter(p, caps[..i])
    {
      FilterStep(p, caps, i);
      if caps[i] !in lock { out := out + [caps[i]]; }
    }
    assert caps[..|caps|] == caps;
  }

  method SelectLimits(m: Limits, e: EffectiveLimits) returns (out: seq<LimitDiff>)
    ensures out == RaisedOf(FIELD_ORDER, m, e)
  {
    hide Requested, EffectiveField;
    out := [];
    for i := 0 to |FIELD_ORDER|
      invariant out == RaisedOf(FIELD_ORDER[..i], m, e)
    {
      assert FIELD_ORDER[..i + 1][..i] == FIELD_ORDER[..i];
      var name := FIELD_ORDER[i];
      var req, cur := Requested(name, m), EffectiveField(e, name);
      if req > cur { out := out + [LimitDiff(name, cur, req)]; }
    }
    assert FIELD_ORDER[..|FIELD_ORDER|] == FIELD_ORDER;
  }

  // ---------------------------------------------------------------- when there is nothing to approve

  ghost predicate SameIdentities(mime: Mime, a: seq<Route>, ka: int, b: seq<Route>, kb: int) {
    var x, y := Identities(mime, a, ka), Identities(mime, b, kb);
    x.Ok? && y.Ok? && Members(x.value) == Members(y.value)
  }

  ghost predicate LimitsCovered(m: Limits, e: EffectiveLimits) {
    forall f :: Requested(f, m) <= EffectiveField(e, f)
  }

  /** Identities coincide, and no requested capability or limit is missing from the entry. */
  ghost predicate NothingToApprove(mime: Mime, m: Manifest, entry: Option<LockEntry>) {
    SameIdentities(mime, m.routes, Requested(RequestBodyKB, m.limits),
                   LockRoutes(entry), EffectiveField(LockLimits(entry), RequestBodyKB)) &&
    (forall c | c in m.capabilities :: c in LockCaps(entry)) && LimitsCovered(m.limits, LockLimits(entry))
  }

  /** The diff is empty exactly when there is nothing to approve. */
  lemma {:induction false} DiffEmptyIff(mime: Mime, m: Manifest, entry: Option<LockEntry>)
    ensures DiffOf(mime, m, entry).Ok? && Empty(DiffOf(mime, m, entry).value) <==> NothingToApprove(mime, m, entry)
  {
    hide IdentityOf, Identities, NotIn, Absent, RaisedOf, LimitsCovered,
         Filter, Requested, EffectiveField, LockRoutes, LockCaps, LockLimits;
    var R, L := Requested(RequestBodyKB, m.limits), EffectiveField(LockLimits(entry), RequestBodyKB);
    var ms, ls := Identities(mime, m.routes, R), Identities(mime, LockRoutes(entry), L);
    if ms.Ok? && ls.Ok? {
      NoneAdded(mime, m.routes, R, ms.value, ls.value);
      NoneAdded(mime, LockRoutes(entry), L, ls.value, ms.value);
      NoneRaised(m.limits, LockLimits(entry));
      NoneAbsent(m.capabilities, LockCaps(entry));
    }
  }

  lemma NoneAbsent(caps: seq<string>, lock: seq<string>)
    ensures Filter(Absent(lock), caps) == [] <==> forall c | c in caps :: c in lock
  {
    var p := Absent(lock);
    assert forall i | 0 <= i < |caps| :: p(caps[i]) <==> caps[i] !in lock;
  }

  lemma NoneRaised(m: Limits, e: EffectiveLimits)
    ensures RaisedOf(FIELD_ORDER, m, e) == [] <==> LimitsCovered(m, e)
  {
    if RaisedOf(FIELD_ORDER, m, e) == [] {
      forall f ensures Requested(f, m) <= EffectiveField(e, f) {
        FieldOrderComplete(f);
        var j :| 0 <= j < |FIELD_ORDER| && FIELD_ORDER[j] == f;
      }
    }
  }

  lemma {:induction false} NoneAdded(mime: Mime, routes: seq<Route>, kb: int, own: seq<Identity>, other: seq<Identity>)
    requires Identities(mime, routes, kb) == Ok(own)
    ensures Filter(NotIn(mime, kb, other), routes) == [] <==> Members(own) <= Members(other)
  {
    var p := NotIn(mime, kb, other);
    hide IdentityOf;
    assert forall i | 0 <= i < |routes| :: p(routes[i]) <==> own[i] !in other;
    if Members(own) <= Members(other) {
      forall i | 0 <= i < |routes| ensures !p(routes[i]) { assert own[i] in Members(own); }
    }
    if Filter(p, routes) == [] {
      forall id | id in own ensures id in other {
        var i :| 0 <= i < |own| && own[i] == id;
        assert !p(routes[i]);
      }
    }
  }

  /** Approving every requested route and capability settles the request just when every limit was granted in full. */
  lemma {:induction false} FullApprovalSettles(mime: Mime, m: Manifest, limits: Limits, who: string, now: int)
    requires RoutesHaveIdentity(mime, m.routes, Requested(RequestBodyKB, m.limits))
    ensures var e := EntryOf(m, Grants(m.capabilities, m.routes, limits), who, now);
            NothingToApprove(mime, m, Some(e)) <==> forall f :: Requested(f, m.limits) <= Requested(f, limits)
  {
    var e := EntryOf(m, Grants(m.capabilities, m.routes, limits), who, now);
    var R := Requested(RequestBodyKB, m.limits);
    assert forall f :: EffectiveField(e.effective, f) == EffectiveLimit(f, m.limits, limits);
    ReasonsDoNotMatter(mime, m.routes, R);
    hide IdentityOf, Identities, WithoutReasons;
    if forall f :: Requested(f, m.limits) <= Requested(f, limits) {
      assert EffectiveField(e.effective, RequestBodyKB) == R;
    }
    if NothingToApprove(mime, m, Some(e)) {
      forall f ensures Requested(f, m.limits) <= Requested(f, limits) {
        assert Requested(f, m.limits) <= EffectiveField(e.effective, f);
      }
    }
  }

  lemma {:induction false} ReasonsDoNotMatter(mime: Mime, routes: seq<Route>, kb: int)
    requires RoutesHaveIdentity(mime, routes, kb)
    ensures Identities(mime, routes, kb).Ok?
    ensures Identities(mime, WithoutReasons(routes), kb) == Identities(mime, routes, kb)
  {
    TryMapSame(Identifier(mime, kb), WithoutReasons(routes), routes);
  }

  /** The manifest's own request is grantable exactly when no limit it sets is above the core maximum. */
  lemma {:induction false} OwnRequestGrantable(mime: Mime, m: Manifest)
    requires RoutesHaveIdentity(mime, m.routes, Requested(RequestBodyKB, m.limits))
    ensures WithinRequest(mime, m, Grants(m.capabilities, m.routes, m.limits)) <==>
            forall f | f in m.limits :: m.limits[f] <= MaxOf(f)
  {
    hide IdentityOf;
    var R := Requested(RequestBodyKB, m.limits);
    forall i | 0 <= i < |m.routes| ensures RouteRequested(mime, m, m.routes[i]) {
      assert IdentityOf(mime, m.routes[i], R).Ok?;
    }
  }

  /** With no entry, the diff is empty only for a manifest that asks for nothing, not even a default limit. */
  lemma {:induction false} FirstDiffEmptyIff(mime: Mime, m: Manifest)
    ensures NothingToApprove(mime, m, None) <==>
            m.routes == [] && m.capabilities == [] && forall f :: Requested(f, m.limits) <= 0
  {
    var R := Requested(RequestBodyKB, m.limits);
    var ms := Identities(mime, m.routes, R);
    assert Identities(mime, [], 0) == Ok([]);
    hide IdentityOf, Identities;
    if ms.Ok? && m.routes != [] { assert ms.value[0] in Members(ms.value); }
    if m.capabilities != [] { assert m.capabilities[0] in m.capabilities; }
    assert m.routes == [] ==> ms == Ok([]) by { assert Identities(mime, m.routes, R).Ok? ==> |ms.value| == |m.routes|; }
  }
}
