/**
  Subtree tests and the join of a connection's base path with a request path:
  routepath.HasPathPrefix, connections.joinPath and connections.relativeRedirectPath.
 */
module PathJoin {
  import opened Text
  import opened RoutePath
  import opened Template
  import opened Options

  // ---------------------------------------------------------------- segment lists

  lemma ConcatAssoc<T>(a: seq<T>, b: seq<T>, c: seq<T>)
    ensures a + (b + c) == (a + b) + c
  {
  }

  lemma {:induction false} SplitConcat<T>(a: seq<T>, b: seq<T>, sep: T)
    ensures Split(a + [sep] + b, sep) == Split(a, sep) + Split(b, sep)
  {
    var s, rb := a + [sep] + b, Split(b, sep);
    if a == [] {
      assert s[1..] == b;
    } else {
      assert s[1..] == a[1..] + [sep] + b && s[0] == a[0];
      SplitConcat(a[1..], b, sep);
      var ra := Split(a[1..], sep);
      if a[0] == sep {
        ConcatAssoc([[]], ra, rb);
      } else {
        assert (ra + rb)[0] == ra[0] && (ra + rb)[1..] == ra[1..] + rb;
        ConcatAssoc([[a[0]] + ra[0]], ra[1..], rb);
      }
    }
  }

  lemma {:induction false} JoinConcat<T>(x: seq<seq<T>>, y: seq<seq<T>>, sep: T)
    requires x != [] && y != []
    ensures Join(x + y, sep) == Join(x, sep) + [sep] + Join(y, sep)
  {
    if |x| == 1 {
      assert (x + y)[1..] == y;
    } else {
      var jx, jy := Join(x[1..], sep), Join(y, sep);
      assert (x + y)[1..] == x[1..] + y && (x + y)[0] == x[0];
      JoinConcat(x[1..], y, sep);
      assert x[0] + [sep] + (jx + [sep] + jy) == (x[0] + [sep] + jx) + [sep] + jy;
    }
  }

  ghost predicate AllCanonical(segs: seq<Bytes>) {
    forall i | 0 <= i < |segs| :: CanonicalSegment(segs[i])
  }

  /** c is the canonical path with exactly these segments. */
  ghost predicate IsPath(c: Bytes, segs: seq<Bytes>) {
    if segs == [] then c == [SLASH] else AllCanonical(segs) && c == [SLASH] + Join(segs, SLASH)
  }

  lemma CanonicalHasSegments(c: Bytes)
    requires Canonical(c)
    ensures IsPath(c, PathSegments(c)) && c != []
  {
    CanonIs(c);
    if c != [SLASH] {
      forall i | 0 <= i < |PathSegments(c)| ensures CanonicalSegment(PathSegments(c)[i]) { CanonicalSegments(c, i); }
      RejoinCanonical(c);
    }
  }

  lemma SegmentsMakeCanonical(c: Bytes, segs: seq<Bytes>)
    requires IsPath(c, segs)
    ensures Canonical(c) && PathSegments(c) == segs
  {
    if segs == [] { RootIsCanonical(); } else { JoinedIsCanonical(segs); }
  }

  lemma {:induction false} PathEnds(c: Bytes, segs: seq<Bytes>)
    requires IsPath(c, segs) && segs != []
    ensures c[|c| - 1] != SLASH && c != [SLASH]
  {
    LastByte(segs);
  }

  lemma {:induction false} LastByte(segs: seq<Bytes>)
    requires segs != [] && AllCanonical(segs)
    ensures Join(segs, SLASH) != [] && Join(segs, SLASH)[|Join(segs, SLASH)| - 1] != SLASH
  {
    assert CanonicalSegment(segs[0]);
    if |segs| == 1 {
      assert segs[0][|segs[0]| - 1] in segs[0];
    } else {
      LastByte(segs[1..]);
    }
  }

  lemma {:induction false} AppendPaths(b: Bytes, x: seq<Bytes>, p: Bytes, y: seq<Bytes>)
    requires IsPath(b, x) && IsPath(p, y) && x != [] && y != []
    ensures IsPath(b + p, x + y)
  {
    JoinConcat(x, y, SLASH);
    PathGlue(Join(x, SLASH), Join(y, SLASH));
  }

  lemma PathGlue(a: Bytes, b: Bytes)
    ensures [SLASH] + (a + [SLASH] + b) == ([SLASH] + a) + ([SLASH] + b)
  {
  }

  lemma {:induction false} SplitPath(c: Bytes, x: seq<Bytes>, y: seq<Bytes>, b: Bytes)
    requires IsPath(c, x + y) && IsPath(b, x) && x != [] && y != []
    ensures IsPath([SLASH] + Join(y, SLASH), y) && c == b + ([SLASH] + Join(y, SLASH))
  {
    var z := x + y;
    forall i | 0 <= i < |y| ensures CanonicalSegment(y[i]) { assert z[|x| + i] == y[i]; }
    JoinConcat(x, y, SLASH);
    PathGlue(Join(x, SLASH), Join(y, SLASH));
  }

  lemma SplitOfPath(c: Bytes, segs: seq<Bytes>)
    requires IsPath(c, segs) && segs != []
    ensures Split(c[1..], SLASH) == segs
  {
    forall p | p in segs ensures SLASH !in p {
      var i :| 0 <= i < |segs| && segs[i] == p;
      assert CanonicalSegment(segs[i]);
    }
    assert c[1..] == Join(segs, SLASH);
    SplitJoin(segs, SLASH);
  }

  lemma {:induction false} NoDoubleSlash(c: Bytes, segs: seq<Bytes>, i: nat)
    requires IsPath(c, segs) && i + 1 < |c|
    ensures c[i] != SLASH || c[i + 1] != SLASH
  {
    if segs != [] && c[i] == SLASH && c[i + 1] == SLASH {
      SplitOfPath(c, segs);
      assert Split(c, SLASH) == [[]] + segs;
      var n := EmptyPart(c, i);
      assert false;
    }
  }

  lemma {:induction false} EmptyPart(c: Bytes, i: nat) returns (n: nat)
    requires i + 1 < |c| && c[i] == SLASH && c[i + 1] == SLASH
    ensures 1 <= n < |Split(c, SLASH)| && Split(c, SLASH)[n] == []
  {
    var a, b := c[..i], c[i + 2..];
    assert c == a + [SLASH] + ([SLASH] + b);
    SplitConcat(a, [SLASH] + b, SLASH);
    n := |Split(a, SLASH)|;
    assert ([SLASH] + b)[1..] == b;
  }

  // ---------------------------------------------------------------- HasPathPrefix

  /** routepath.HasPathPrefix. */
  predicate HasPathPrefix(path: Bytes, prefix: Bytes) {
    prefix == [SLASH] || path == prefix || TrimSuffixSlash(prefix) + [SLASH] <= path
  }

  function TrimSuffixSlash(s: Bytes): Bytes {
    if s != [] && s[|s| - 1] == SLASH then s[..|s| - 1] else s
  }

  lemma {:induction false} PrefixGivesSegments(path: Bytes, y: seq<Bytes>, prefix: Bytes, x: seq<Bytes>)
    requires IsPath(path, y) && IsPath(prefix, x) && x != [] && HasPathPrefix(path, prefix)
    ensures x <= y
  {
    PathEnds(prefix, x);
    if path == prefix {
      if y != [] { SplitOfPath(path, y); }
      SplitOfPath(prefix, x);
    } else {
      var rest := path[|prefix| + 1..];
      assert path == prefix + [SLASH] + rest;
      assert path[1..] == prefix[1..] + [SLASH] + rest;
      SplitConcat(prefix[1..], rest, SLASH);
      SplitOfPath(prefix, x);
      assert y != [];
      SplitOfPath(path, y);
    }
  }

  lemma {:induction false} SegmentsGivePrefix(path: Bytes, y: seq<Bytes>, prefix: Bytes, x: seq<Bytes>)
    requires IsPath(path, y) && IsPath(prefix, x) && x <= y
    ensures HasPathPrefix(path, prefix)
  {
    if x != [] && x != y {
      PathEnds(prefix, x);
      assert y == x + y[|x|..];
      SplitPath(path, x, y[|x|..], prefix);
    }
  }

  /** On canonical paths the subtree test is exactly the prefix order of segment lists. */
  lemma PrefixIsSegmentPrefix(path: Bytes, prefix: Bytes)
    requires Canonical(path) && Canonical(prefix)
    ensures HasPathPrefix(path, prefix) <==> PathSegments(prefix) <= PathSegments(path)
  {
    CanonicalHasSegments(path);
    CanonicalHasSegments(prefix);
    hide Canon, Canonical, PathSegments;
    var x, y := PathSegments(prefix), PathSegments(path);
    if x != [] && HasPathPrefix(path, prefix) { PrefixGivesSegments(path, y, prefix, x); }
    if x <= y { SegmentsGivePrefix(path, y, prefix, x); }
  }

  lemma PrefixTransitive(a: Bytes, b: Bytes, c: Bytes)
    requires Canonical(a) && Canonical(b) && Canonical(c)
    requires HasPathPrefix(a, b) && HasPathPrefix(b, c)
    ensures HasPathPrefix(a, c)
  {
    hide *;
    PrefixIsSegmentPrefix(a, b);
    PrefixIsSegmentPrefix(b, c);
    PrefixIsSegmentPrefix(a, c);
  }

  // ---------------------------------------------------------------- joinPath

  /** What url.Parse reports of a path-only reference. */
  datatype Url = Url(scheme: Bytes, host: Bytes, path: Bytes)

  datatype JoinError = PathTraversal | Unparsable | BadBase(path: PathError) | Outside

  const SCHEME_MARK: Bytes := [0x3A, SLASH, SLASH]

  function OrRoot(path: Bytes): Bytes { if path == [] then [SLASH] else path }

  /** connections.joinPath on the path component; url.Parse is a parameter. */
  function Joined(base: Bytes, p: Bytes, parse: Bytes -> Option<Url>): Result<Bytes, JoinError> {
    if p == [] then Ok(base)
    else if Index(p, SCHEME_MARK) != -1 || [SLASH, SLASH] <= p then Err(PathTraversal)
    else if 0x3F in p || 0x23 in p then Err(PathTraversal)
    else if parse(p).None? then Err(Unparsable)
    else if parse(p).value.scheme != [] || parse(p).value.host != [] then Err(PathTraversal)
    else
      var req := Canon(OrRoot(parse(p).value.path));
      var b := Canon(OrRoot(base));
      if req.Err? then Err(PathTraversal)
      else if b.Err? then Err(BadBase(b.error))
      else if req.value == [SLASH] then Ok(b.value)
      else Ok(TrimSuffixSlash(b.value) + req.value)
  }

  /** connections.relativeRedirectPath. */
  function Relative(base: Bytes, path: Bytes): Result<Bytes, JoinError> {
    var b := Canon(OrRoot(base));
    if b.Err? then Err(BadBase(b.error))
    else if b.value == [SLASH] then Ok(path)
    else if !HasPathPrefix(path, b.value) then Err(Outside)
    else Ok(OrRoot(if b.value <= path then path[|b.value|..] else path))
  }

  /** url.Parse of an absolute path with well-formed escapes yields the decoded path and nothing else. */
  ghost predicate DecodesPaths(parse: Bytes -> Option<Url>) {
    forall p: Bytes | Canonical(p) :: parse(p) == Some(Url([], [], Octets(Tokens(p))))
  }

  lemma SchemeHasDoubleSlash(p: Bytes) returns (k: nat)
    requires Index(p, SCHEME_MARK) != -1 || [SLASH, SLASH] <= p
    ensures k + 1 < |p| && p[k] == SLASH && p[k + 1] == SLASH
  {
    var i := Index(p, SCHEME_MARK);
    if i == -1 { return 0; }
    assert p[i..i + 3][1] == p[i + 1] && p[i..i + 3][2] == p[i + 2];
    k := i + 1;
  }

  lemma {:induction false} NotScheme(p: Bytes)
    requires Canonical(p)
    ensures p != [] && Index(p, SCHEME_MARK) == -1 && !([SLASH, SLASH] <= p) && 0x3F !in p && 0x23 !in p
  {
    CanonIs(p);
    GoodBytesIs(p);
    CanonicalHasSegments(p);
    hide Canon, Canonical, PathSegments, Acceptable, Normal, GoodBytes, IsPath;
    if Index(p, SCHEME_MARK) != -1 || [SLASH, SLASH] <= p {
      var k := SchemeHasDoubleSlash(p);
      NoDoubleSlash(p, PathSegments(p), k);
    }
  }

  /** The joined text, on canonical paths. */
  function Appended(b: Bytes, p: Bytes): Bytes {
    if b == [SLASH] then p else if p == [SLASH] then b else b + p
  }

  lemma {:induction false} AppendedIsPath(b: Bytes, x: seq<Bytes>, p: Bytes, y: seq<Bytes>)
    requires IsPath(b, x) && IsPath(p, y)
    ensures IsPath(Appended(b, p), x + y)
  {
    if x == [] {
      assert x + y == y;
    } else {
      PathEnds(b, x);
      if y == [] { assert x + y == x; } else { PathEnds(p, y); AppendPaths(b, x, p, y); }
    }
  }

  /** What joinPath computes from a parsed canonical path: the decoded path, canonicalised again. */
  lemma {:induction false} JoinComputes(base: Bytes, p: Bytes, decoded: Bytes, parse: Bytes -> Option<Url>)
    requires Canon(OrRoot(base)).Ok? && Canonical(p) && decoded != []
    requires parse(p) == Some(Url([], [], decoded))
    ensures Joined(base, p, parse) ==
            var req := Canon(decoded);
            if req.Err? then Err(PathTraversal) else Ok(Appended(Canon(OrRoot(base)).value, req.value))
  {
    var b := Canon(OrRoot(base)).value;
    CanonIdempotent(OrRoot(base));
    CanonicalHasSegments(b);
    NotScheme(p);
    TrimBase(b);
    hide Canon, PathSegments, IsPath, Index, TrimSuffixSlash, Canonical;
  }

  /** Joining an escape-free canonical path appends it to the base. */
  lemma {:induction false} JoinAppends(base: Bytes, p: Bytes, parse: Bytes -> Option<Url>)
    requires Canon(OrRoot(base)).Ok? && Canonical(p) && PERCENT !in p && DecodesPaths(parse)
    ensures Joined(base, p, parse) == Ok(Appended(Canon(OrRoot(base)).value, p))
  {
    NotScheme(p);
    PlainTokens(p);
    assert Octets(Tokens(p)) == p;
    hide Canon, Joined, Index;
    JoinComputes(base, p, p, parse);
  }

  lemma TrimBase(b: Bytes)
    requires IsPath(b, PathSegments(b))
    ensures forall p: Bytes :: TrimSuffixSlash(b) + p == if b == [SLASH] then p else b + p
  {
    if b != [SLASH] { PathEnds(b, PathSegments(b)); }
  }

  /** Appending a canonical path to a canonical base gives the base's segments, then the path's. */
  lemma {:induction false} AppendedInside(b: Bytes, p: Bytes)
    requires Canonical(b) && Canonical(p)
    ensures var j := Appended(b, p);
            Canonical(j) && HasPathPrefix(j, b) && PathSegments(j) == PathSegments(b) + PathSegments(p)
  {
    CanonicalHasSegments(b);
    CanonicalHasSegments(p);
    hide *;
    var x, y, j := PathSegments(b), PathSegments(p), Appended(b, p);
    AppendedIsPath(b, x, p, y);
    SegmentsMakeCanonical(j, x + y);
    SegmentsGivePrefix(j, x + y, b, x);
  }

  /** A successful join of any non-empty path appends some canonical path, however the path was parsed. */
  lemma {:induction false} JoinedIsAppended(base: Bytes, p: Bytes, parse: Bytes -> Option<Url>) returns (req: Bytes)
    requires p != [] && Joined(base, p, parse).Ok?
    ensures Canon(OrRoot(base)).Ok? && Canonical(Canon(OrRoot(base)).value) && Canonical(req)
    ensures Joined(base, p, parse) == Ok(Appended(Canon(OrRoot(base)).value, req))
  {
    var path := OrRoot(parse(p).value.path);
    CanonIdempotent(path);
    CanonIdempotent(OrRoot(base));
    var b := Canon(OrRoot(base)).value;
    CanonicalHasSegments(b);
    TrimBase(b);
    req := Canon(path).value;
    hide Canon, PathSegments, IsPath, Index, TrimSuffixSlash, Canonical;
  }

  /**
    The joined path is canonical and inside the base, whatever non-empty path is joined; an
    escape-free canonical path adds exactly its own segments. The empty path gives the base back as
    configured, canonical or not.
   */
  lemma {:induction false} JoinStaysInside(base: Bytes, p: Bytes, parse: Bytes -> Option<Url>)
    requires Joined(base, p, parse).Ok?
    ensures p == [] ==> Joined(base, p, parse) == Ok(base)
    ensures p != [] ==>
              Canon(OrRoot(base)).Ok? &&
              var b, j := Canon(OrRoot(base)).value, Joined(base, p, parse).value;
              Canonical(j) && HasPathPrefix(j, b) && PathSegments(b) <= PathSegments(j) &&
              (Canonical(p) && PERCENT !in p && DecodesPaths(parse) ==>
                 PathSegments(j) == PathSegments(b) + PathSegments(p))
  {
    if p == [] { return; }
    hide *;
    var req := JoinedIsAppended(base, p, parse);
    var b := Canon(OrRoot(base)).value;
    AppendedInside(b, req);
    if Canonical(p) && PERCENT !in p && DecodesPaths(parse) {
      JoinAppends(base, p, parse);
      AppendedInside(b, p);
    }
  }

  lemma {:induction false} RelativeOfAppended(base: Bytes, p: Bytes)
    requires Canon(OrRoot(base)).Ok? && Canonical(p)
    ensures Relative(base, Appended(Canon(OrRoot(base)).value, p)) == Ok(p)
  {
    var b := Canon(OrRoot(base)).value;
    CanonIdempotent(OrRoot(base));
    NotScheme(p);
    AppendedInside(b, p);
    hide Canon, Canonical, PathSegments, HasPathPrefix;
    if b != [SLASH] { assert b <= Appended(b, p); }
  }

  /** relativeRedirectPath undoes joinPath exactly on the paths without an escape. */
  lemma {:induction false} RelativeUndoesJoin(base: Bytes, p: Bytes, parse: Bytes -> Option<Url>)
    requires Canon(OrRoot(base)).Ok? && Canonical(p) && DecodesPaths(parse)
    ensures (Joined(base, p, parse).Ok? && Relative(base, Joined(base, p, parse).value) == Ok(p)) <==> PERCENT !in p
  {
    NotScheme(p);
    hide *;
    JoinAppendsIffEscapeFree(base, p, parse);
    RelativeOfAppended(base, p);
    if Joined(base, p, parse).Ok? {
      var req := JoinedIsAppended(base, p, parse);
      RelativeOfAppended(base, req);
    }
  }

  /**
    relativeRedirectPath succeeds exactly inside the base, and joinPath undoes it exactly when what
    it leaves has no escape; the base may have any.
   */
  lemma {:induction false} JoinUndoesRelative(base: Bytes, c: Bytes, parse: Bytes -> Option<Url>)
    requires Canon(OrRoot(base)).Ok? && Canonical(c) && DecodesPaths(parse)
    ensures var b := Canon(OrRoot(base)).value;
            (Relative(base, c).Ok? <==> PathSegments(b) <= PathSegments(c)) &&
            (Relative(base, c).Ok? ==>
               var r := Relative(base, c).value;
               Canonical(r) && (Joined(base, r, parse) == Ok(c) <==> PERCENT !in r))
  {
    var b := Canon(OrRoot(base)).value;
    CanonIdempotent(OrRoot(base));
    CanonicalHasSegments(b);
    CanonicalHasSegments(c);
    PrefixIsSegmentPrefix(c, b);
    assert b == [SLASH] ==> PathSegments(b) == [];
    hide Canon, Canonical, Joined, PathSegments, HasPathPrefix;
    if Relative(base, c).Ok? {
      var r := Relative(base, c).value;
      RelativeIsPath(b, PathSegments(b), c, PathSegments(c), r);
      SegmentsMakeCanonical(r, if b == [SLASH] then PathSegments(c) else PathSegments(c)[|PathSegments(b)|..]);
      JoinAppendsIffEscapeFree(base, r, parse);
    }
  }

  lemma {:induction false} RelativeIsPath(b: Bytes, x: seq<Bytes>, c: Bytes, y: seq<Bytes>, r: Bytes)
    requires IsPath(b, x) && IsPath(c, y) && x <= y && (b == [SLASH] ==> x == [])
    requires r == if b == [SLASH] then c else OrRoot(if b <= c then c[|b|..] else c)
    ensures IsPath(r, if b == [SLASH] then y else y[|x|..]) && Appended(b, r) == c
  {
    if b != [SLASH] {
      if x == y {
        assert c[|b|..] == [];
      } else {
        assert y == x + y[|x|..];
        SplitPath(c, x, y[|x|..], b);
        PathEnds([SLASH] + Join(y[|x|..], SLASH), y[|x|..]);
        assert c[|b|..] == [SLASH] + Join(y[|x|..], SLASH);
      }
    }
  }

  // ---------------------------------------------------------------- escapes break the inverse

  lemma {:induction false} NormalNotLonger(s: Bytes)
    ensures |Octets(Tokens(s))| <= |s| && |Normal(s)| <= |s|
    ensures PERCENT in s && SafeTokens(Tokens(s)) ==> |Octets(Tokens(s))| < |s|
  {
    if s != [] {
      var rest := if StartsEscape(s) then s[3..] else s[1..];
      NormalNotLonger(rest);
      var ts := Tokens(s);
      assert ts[1..] == Tokens(rest);
      assert NormAll(ts)[1..] == NormAll(Tokens(rest));
      if SafeTokens(ts) { SafeHead(s); }
    }
  }

  /**
    Appending a canonical request path works exactly when it has no escape: url.Parse decodes an
    escape before the path is canonicalised, so an escaped path is refused or rewritten.
   */
  lemma {:induction false} JoinAppendsIffEscapeFree(base: Bytes, p: Bytes, parse: Bytes -> Option<Url>)
    requires Canon(OrRoot(base)).Ok? && Canonical(p) && DecodesPaths(parse)
    ensures Joined(base, p, parse) == Ok(Appended(Canon(OrRoot(base)).value, p)) <==> PERCENT !in p
  {
    if PERCENT !in p {
      JoinAppends(base, p, parse);
    } else {
      DecodedIsShorter(p);
      var d, b := Octets(Tokens(p)), Canon(OrRoot(base)).value;
      assert parse(p) == Some(Url([], [], d));
      hide *;
      JoinComputes(base, p, d, parse);
      if Canon(d).Ok? { AppendedShorter(b, Canon(d).value, p); }
    }
  }

  lemma AppendedShorter(b: Bytes, req: Bytes, p: Bytes)
    requires |req| < |p| && |p| > 1
    ensures Appended(b, req) != Appended(b, p)
  {
    assert |Appended(b, req)| < |Appended(b, p)|;
  }

  lemma DecodedIsShorter(p: Bytes)
    requires Canonical(p) && PERCENT in p
    ensures var d := Octets(Tokens(p));
            d != [] && (Canon(d).Ok? ==> |Canon(d).value| < |p| && |p| > 1)
  {
    CanonIs(p);
    NormalNotLonger(p);
    var d := Octets(Tokens(p));
    assert Tokens(p) != [];
    CanonIs(d);
    NormalNotLonger(d);
  }

  /** Such a path: "/%20" is canonical, and the space it decodes to is refused under every base. */
  lemma EscapedSpaceRefused(base: Bytes, parse: Bytes -> Option<Url>)
    requires Canon(OrRoot(base)).Ok? && DecodesPaths(parse)
    ensures var p: Bytes := [SLASH, PERCENT, 0x32, 0x30];
            Canonical(p) && Joined(base, p, parse) == Err(PathTraversal)
  {
    var p: Bytes := [SLASH, PERCENT, 0x32, 0x30];
    EscapedSpaceReads();
    hide *;
    JoinComputes(base, p, [SLASH, 0x20], parse);
  }

  lemma EscapedSpaceTokens()
    ensures var p: Bytes := [SLASH, PERCENT, 0x32, 0x30];
            Tokens(p[1..]) == [Esc(0x32, 0x30)] && Tokens(p) == [Raw(SLASH), Esc(0x32, 0x30)] && Normal(p) == p
  {
    var p: Bytes := [SLASH, PERCENT, 0x32, 0x30];
    var seg := p[1..];
    var ts := [Raw(SLASH), Esc(0x32, 0x30)];
    assert seg == [PERCENT, 0x32, 0x30] && seg[3..] == [];
    assert Tokens(seg) == [Esc(0x32, 0x30)] + Tokens(seg[3..]);
    assert Tokens(p) == [Raw(SLASH)] + Tokens(seg) == ts;
    assert NormAll(ts) == ts && ts[1..] == [Esc(0x32, 0x30)] && ts[1..][1..] == [];
    assert Render(ts[1..]) == seg + [] && Render(ts) == [SLASH] + Render(ts[1..]) == p;
  }

  lemma EscapedSpaceReads()
    ensures var p: Bytes := [SLASH, PERCENT, 0x32, 0x30];
            Canonical(p) && Octets(Tokens(p)) == [SLASH, 0x20] && Canon([SLASH, 0x20]).Err?
  {
    hide Tokens, Normal, Split, EscapeFault, CanonSegments, Octets, Join;
    var p: Bytes := [SLASH, PERCENT, 0x32, 0x30];
    EscapedSpaceTokens();
    SplitAtom(p[1..], SLASH);
    assert Octets(Tokens(p)) == [SLASH, 0x20] && Octets(Tokens(p[1..])) == [0x20];
    CanonIs(p);
    var bad: Bytes := [SLASH, 0x20];
    assert ControlOrSpaceByte(bad[1]);
  }

  // ---------------------------------------------------------------- the code

  method JoinPath(base: Bytes, p: Bytes, parse: Bytes -> Option<Url>) returns (r: Result<Bytes, JoinError>)
    ensures r == Joined(base, p, parse)
  {
    if p == [] { return Ok(base); }
    if Index(p, SCHEME_MARK) != -1 || [SLASH, SLASH] <= p { return Err(PathTraversal); }
    if 0x3F in p || 0x23 in p { return Err(PathTraversal); }
    var parsed := parse(p);
    if parsed.None? { return Err(Unparsable); }
    if parsed.value.scheme != [] || parsed.value.host != [] { return Err(PathTraversal); }
    var reqPath := parsed.value.path;
    if reqPath == [] { reqPath := [SLASH]; }
    var canonicalReq := Canonicalise(reqPath);
    if canonicalReq.Err? { return Err(PathTraversal); }
    var basePath := base;
    if basePath == [] { basePath := [SLASH]; }
    var canonicalBase := Canonicalise(basePath);
    if canonicalBase.Err? { return Err(BadBase(canonicalBase.error)); }
    var joined := canonicalBase.value;
    if canonicalReq.value != [SLASH] {
      joined := TrimSuffixSlash(canonicalBase.value) + canonicalReq.value;
    }
    return Ok(joined);
  }

  method RelativeRedirectPath(base: Bytes, canonicalPath: Bytes) returns (r: Result<Bytes, JoinError>)
    ensures r == Relative(base, canonicalPath)
  {
    var basePath := base;
    if basePath == [] { basePath := [SLASH]; }
    var canonicalBase := Canonicalise(basePath);
    if canonicalBase.Err? { return Err(BadBase(canonicalBase.error)); }
    var b := canonicalBase.value;
    if b == [SLASH] { return Ok(canonicalPath); }
    if !HasPathPrefix(canonicalPath, b) { return Err(Outside); }
    var relative := if b <= canonicalPath then canonicalPath[|b|..] else canonicalPath;
    if relative == [] { relative := [SLASH]; }
    return Ok(relative);
  }
}
