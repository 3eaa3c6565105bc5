/**
  routepath.Canonicalise: one normal form for request paths (sections 2.3 and 6.2.2 of RFC 3986).
 */
module RoutePath {
  import opened Text
  import opened Options

  datatype PathError =
    | NotAbsolute | BackslashInPath | ControlOrSpace | MalformedEscape
    | EncodedSeparator | DotSegment | EmptySegment | QueryOrFragment

  // ---------------------------------------------------------------- bytes and escapes

  predicate IsHex(b: Byte) {
    0x30 <= b <= 0x39 || 0x61 <= b <= 0x66 || 0x41 <= b <= 0x46
  }

  function HexVal(b: Byte): (v: Byte)
    requires IsHex(b)
    ensures v < 16
  {
    if 0x30 <= b <= 0x39 then b - 0x30
    else if 0x61 <= b <= 0x66 then b - 0x61 + 10
    else b - 0x41 + 10
  }

  function HexByte(hi: Byte, lo: Byte): Byte
    requires IsHex(hi) && IsHex(lo)
  {
    16 * HexVal(hi) + HexVal(lo)
  }

  /** One digit of the "%02x" rendering. */
  function HexDigit(v: int): (b: Byte)
    requires 0 <= v < 16
    ensures IsHex(b) && HexVal(b) == v
  {
    if v < 10 then 0x30 + v else 0x61 + v - 10
  }

  predicate IsUnreserved(b: Byte) {
    0x41 <= b <= 0x5A || 0x61 <= b <= 0x7A || 0x30 <= b <= 0x39 ||
    b == 0x2D || b == DOT || b == 0x5F || b == 0x7E
  }

  // ---------------------------------------------------------------- what a path text says

  /** A literal byte, or a percent-escape with the digits as written. */
  datatype Token = Raw(b: Byte) | Esc(hi: Byte, lo: Byte)

  predicate GoodToken(t: Token) {
    match t
    case Raw(b) => b != PERCENT
    case Esc(hi, lo) => IsHex(hi) && IsHex(lo)
  }

  predicate StartsEscape(s: Bytes) {
    |s| >= 3 && s[0] == PERCENT && IsHex(s[1]) && IsHex(s[2])
  }

  function Tokens(s: Bytes): (ts: seq<Token>) {
    if s == [] then []
    else if StartsEscape(s) then [Esc(s[1], s[2])] + Tokens(s[3..])
    else [Raw(s[0])] + Tokens(s[1..])
  }

  function Spelling(t: Token): (s: Bytes)
    ensures s != []
  {
    match t
    case Raw(b) => [b]
    case Esc(hi, lo) => [PERCENT, hi, lo]
  }

  function Render(ts: seq<Token>): Bytes {
    if ts == [] then [] else Spelling(ts[0]) + Render(ts[1..])
  }

  /** The byte a token stands for. */
  function Octet(t: Token): Byte {
    match t
    case Raw(b) => b
    case Esc(hi, lo) => if IsHex(hi) && IsHex(lo) then HexByte(hi, lo) else 0
  }

  function Octets(ts: seq<Token>): (bs: Bytes)
    ensures |bs| == |ts| && forall i | 0 <= i < |ts| :: bs[i] == Octet(ts[i])
  {
    if ts == [] then [] else [Octet(ts[0])] + Octets(ts[1..])
  }

  function Norm(t: Token): Token {
    if t.Raw? then t
    else if IsUnreserved(Octet(t)) then Raw(Octet(t))
    else Esc(HexDigit(Octet(t) / 16), HexDigit(Octet(t) % 16))
  }

  function NormAll(ts: seq<Token>): (ns: seq<Token>)
    ensures |ns| == |ts| && forall i | 0 <= i < |ts| :: ns[i] == Norm(ts[i])
  {
    if ts == [] then [] else [Norm(ts[0])] + NormAll(ts[1..])
  }

  /** The text with unreserved escapes decoded and the others in lower-case hex. */
  function Normal(s: Bytes): Bytes {
    Render(NormAll(Tokens(s)))
  }

  /** Same byte; same literal, both escaped, or an unreserved byte escaped on one side only. */
  predicate SameToken(x: Token, y: Token) {
    Octet(x) == Octet(y) && (x.Raw? == y.Raw? || IsUnreserved(Octet(x)))
  }

  /** The texts differ only in hex case and in the escaping of unreserved characters. */
  predicate Equivalent(s: Bytes, t: Bytes) {
    |Tokens(s)| == |Tokens(t)| && forall i | 0 <= i < |Tokens(s)| :: SameToken(Tokens(s)[i], Tokens(t)[i])
  }

  // ---------------------------------------------------------------- the checks

  /** The first fault checkEscapesWellFormed meets, reading left to right. */
  function EscapeFault(s: Bytes): Option<PathError> {
    if s == [] then None
    else if s[0] != PERCENT then EscapeFault(s[1..])
    else if !StartsEscape(s) then Some(MalformedEscape)
    else if HexByte(s[1], s[2]) == SLASH || HexByte(s[1], s[2]) == BACKSLASH then Some(EncodedSeparator)
    else EscapeFault(s[3..])
  }

  const ONE_DOT: Bytes := [DOT]
  const TWO_DOTS: Bytes := [DOT, DOT]

  predicate IsDots(s: Bytes) { s == ONE_DOT || s == TWO_DOTS }

  function SegmentFault(seg: Bytes): Option<PathError> {
    if seg == [] then Some(EmptySegment)
    else if IsDots(seg) || IsDots(Octets(Tokens(seg))) then Some(DotSegment)
    else None
  }

  function CanonSegment(seg: Bytes): Result<Bytes, PathError> {
    var f := SegmentFault(seg);
    if f.Some? then Err(f.value) else Ok(Normal(seg))
  }

  /** Every segment normalised, or the first segment's fault. */
  function CanonSegments(segs: seq<Bytes>): Result<seq<Bytes>, PathError> {
    TryMap(CanonSegment, segs)
  }

  predicate ControlOrSpaceByte(b: Byte) { b <= 0x20 || b == 0x7F }

  predicate HasControlOrSpace(s: Bytes) {
    exists i | 0 <= i < |s| :: ControlOrSpaceByte(s[i])
  }

  /** The verdict and value of Canonicalise, in its order of checks. */
  function Canon(raw: Bytes): Result<Bytes, PathError> {
    if !([SLASH] <= raw) then Err(NotAbsolute)
    else if BACKSLASH in raw then Err(BackslashInPath)
    else if 0x3F in raw || 0x23 in raw then Err(QueryOrFragment)
    else if HasControlOrSpace(raw) then Err(ControlOrSpace)
    else if EscapeFault(raw).Some? then Err(EscapeFault(raw).value)
    else if raw == [SLASH] then Ok([SLASH])
    else
      var segs := CanonSegments(Split(raw[1..], SLASH));
      if segs.Err? then Err(segs.error) else Ok([SLASH] + Join(segs.value, SLASH))
  }

  predicate PathByte(b: Byte) {
    !ControlOrSpaceByte(b) && b != BACKSLASH && b != 0x3F && b != 0x23
  }

  predicate GoodBytes(s: Bytes) { forall i | 0 <= i < |s| :: PathByte(s[i]) }

  predicate SafeToken(t: Token) {
    GoodToken(t) && (t.Esc? ==> Octet(t) != SLASH && Octet(t) != BACKSLASH)
  }

  predicate SafeTokens(ts: seq<Token>) { forall i | 0 <= i < |ts| :: SafeToken(ts[i]) }

  predicate GoodSegment(seg: Bytes) {
    seg != [] && !IsDots(Octets(Tokens(seg)))
  }

  predicate GoodSegments(segs: seq<Bytes>) { forall i | 0 <= i < |segs| :: GoodSegment(segs[i]) }

  /** The paths the package comment says are not rejected, without the order of the checks. */
  predicate Acceptable(raw: Bytes) {
    [SLASH] <= raw && GoodBytes(raw) && SafeTokens(Tokens(raw)) &&
    (raw == [SLASH] || GoodSegments(Split(raw[1..], SLASH)))
  }

  // ---------------------------------------------------------------- tokens and text

  lemma {:induction false} TokensOfRender(ts: seq<Token>)
    requires forall i | 0 <= i < |ts| :: GoodToken(ts[i])
    ensures Tokens(Render(ts)) == ts
  {
    if ts != [] {
      TokensOfRender(ts[1..]);
      var s := Render(ts);
      match ts[0]
      case Raw(b) => assert s[1..] == Render(ts[1..]);
      case Esc(hi, lo) => assert s[3..] == Render(ts[1..]) && s[0] == PERCENT && s[1] == hi && s[2] == lo;
    }
  }

  lemma {:induction false} EscapesAreSafe(s: Bytes)
    ensures EscapeFault(s).None? <==> SafeTokens(Tokens(s))
  {
    if s != [] {
      var ts := Tokens(s);
      var rest := if StartsEscape(s) then s[3..] else s[1..];
      EscapesAreSafe(rest);
      assert ts[1..] == Tokens(rest);
      assert SafeTokens(ts) <==> SafeToken(ts[0]) && SafeTokens(ts[1..]) by {
        if SafeToken(ts[0]) && SafeTokens(ts[1..]) {
          forall i | 0 <= i < |ts| ensures SafeToken(ts[i]) { if i > 0 { assert ts[i] == ts[1..][i - 1]; } }
        }
        if SafeTokens(ts) {
          forall i | 0 <= i < |ts[1..]| ensures SafeToken(ts[1..][i]) { assert ts[i + 1] == ts[1..][i]; }
        }
      }
    }
  }

  lemma {:induction false} NormKeepsMeaning(t: Token)
    requires SafeToken(t)
    ensures SafeToken(Norm(t)) && Octet(Norm(t)) == Octet(t) && Norm(Norm(t)) == Norm(t)
  {
    if t.Esc? && !IsUnreserved(Octet(t)) {
      var v := Octet(t);
      assert v == 16 * (v / 16) + v % 16;
    }
  }

  lemma {:induction false} NormAllKeepsMeaning(ts: seq<Token>)
    requires SafeTokens(ts)
    ensures SafeTokens(NormAll(ts)) && Octets(NormAll(ts)) == Octets(ts) && NormAll(NormAll(ts)) == NormAll(ts)
  {
    forall i | 0 <= i < |ts|
      ensures SafeToken(NormAll(ts)[i]) && Octet(NormAll(ts)[i]) == Octet(ts[i])
      ensures Norm(NormAll(ts)[i]) == NormAll(ts)[i]
    {
      NormKeepsMeaning(ts[i]);
    }
  }

  lemma TokensOfNormal(s: Bytes)
    requires SafeTokens(Tokens(s))
    ensures Tokens(Normal(s)) == NormAll(Tokens(s)) && SafeTokens(Tokens(Normal(s)))
    ensures Normal(Normal(s)) == Normal(s)
    ensures Octets(Tokens(Normal(s))) == Octets(Tokens(s))
  {
    NormAllKeepsMeaning(Tokens(s));
    TokensOfRender(NormAll(Tokens(s)));
  }

  /** Normal forms agree exactly on equivalent texts. */
  lemma {:induction false} NormalDecidesEquivalence(s: Bytes, t: Bytes)
    requires SafeTokens(Tokens(s)) && SafeTokens(Tokens(t))
    ensures Normal(s) == Normal(t) <==> Equivalent(s, t)
  {
    var x, y := Tokens(s), Tokens(t);
    TokensOfNormal(s);
    TokensOfNormal(t);
    assert Normal(s) == Normal(t) <==> NormAll(x) == NormAll(y);
    if |x| == |y| {
      forall i | 0 <= i < |x|
        ensures Norm(x[i]) == Norm(y[i]) <==> SameToken(x[i], y[i])
      {
        NormKeepsMeaning(x[i]);
        NormKeepsMeaning(y[i]);
      }
      if Equivalent(s, t) { assert NormAll(x) == NormAll(y); }
      if NormAll(x) == NormAll(y) {
        forall i | 0 <= i < |x| ensures SameToken(x[i], y[i]) {
          assert NormAll(x)[i] == NormAll(y)[i];
        }
      }
    }
  }

  // ---------------------------------------------------------------- segments

  lemma {:induction false} TokensAcrossSlash(a: Bytes, b: Bytes)
    ensures Tokens(a + [SLASH] + b) == Tokens(a) + [Raw(SLASH)] + Tokens(b)
  {
    var s := a + [SLASH] + b;
    if a == [] {
      assert s[1..] == b;
    } else if StartsEscape(a) {
      assert StartsEscape(s) && s[3..] == a[3..] + [SLASH] + b;
      TokensAcrossSlash(a[3..], b);
    } else {
      assert !StartsEscape(s);
      assert s[1..] == a[1..] + [SLASH] + b;
      TokensAcrossSlash(a[1..], b);
    }
  }

  lemma Assoc(a: Bytes, b: Bytes, c: Bytes)
    ensures a + (b + c) == (a + b) + c
  {
  }

  lemma {:induction false} RenderConcat(x: seq<Token>, y: seq<Token>)
    ensures Render(x + y) == Render(x) + Render(y)
  {
    if x == [] {
      assert x + y == y;
    } else {
      var s, tail := Spelling(x[0]), Render(x[1..]);
      RenderConcat(x[1..], y);
      assert (x + y)[1..] == x[1..] + y && (x + y)[0] == x[0];
      assert Render(x + y) == s + (tail + Render(y));
      Assoc(s, tail, Render(y));
    }
  }

  lemma NormalAcrossSlash(a: Bytes, b: Bytes)
    ensures Normal(a + [SLASH] + b) == Normal(a) + [SLASH] + Normal(b)
  {
    TokensAcrossSlash(a, b);
    NormAllAcross(Tokens(a), Tokens(b));
    RenderAcross(NormAll(Tokens(a)), NormAll(Tokens(b)));
  }

  lemma NormAllAcross(x: seq<Token>, y: seq<Token>)
    ensures NormAll(x + [Raw(SLASH)] + y) == NormAll(x) + [Raw(SLASH)] + NormAll(y)
  {
  }

  lemma {:induction false} RenderAcross(x: seq<Token>, y: seq<Token>)
    ensures Render(x + [Raw(SLASH)] + y) == Render(x) + [SLASH] + Render(y)
  {
    RenderConcat(x + [Raw(SLASH)], y);
    RenderConcat(x, [Raw(SLASH)]);
    assert Render([Raw(SLASH)]) == [SLASH] + Render([]);
  }

  function NormalEach(segs: seq<Bytes>): (ns: seq<Bytes>)
    ensures |ns| == |segs| && forall i | 0 <= i < |segs| :: ns[i] == Normal(segs[i])
  {
    if segs == [] then [] else [Normal(segs[0])] + NormalEach(segs[1..])
  }

  lemma {:induction false} NormalOfJoin(segs: seq<Bytes>)
    requires |segs| >= 1
    ensures Normal(Join(segs, SLASH)) == Join(NormalEach(segs), SLASH)
  {
    if |segs| > 1 {
      NormalOfJoin(segs[1..]);
      NormalAcrossSlash(segs[0], Join(segs[1..], SLASH));
    }
  }

  lemma {:induction false} CanonSegmentsIs(segs: seq<Bytes>)
    ensures CanonSegments(segs).Ok? <==> GoodSegments(segs)
    ensures GoodSegments(segs) ==> CanonSegments(segs).value == NormalEach(segs)
  {
    forall i | 0 <= i < |segs|
      ensures CanonSegment(segs[i]).Ok? <==> GoodSegment(segs[i])
      ensures GoodSegment(segs[i]) ==> CanonSegment(segs[i]).value == Normal(segs[i])
    {
      DotsDecodeToDots(segs[i]);
    }
  }

  lemma DotsDecodeToDots(seg: Bytes)
    ensures IsDots(seg) ==> IsDots(Octets(Tokens(seg)))
  {
    if IsDots(seg) {
      assert Tokens(seg[1..]) == if |seg| == 1 then [] else [Raw(DOT)] + Tokens(seg[1..][1..]);
      assert Octets(Tokens(seg)) == seg;
    }
  }

  /** Canonicalise accepts exactly the acceptable paths, and its value is the token-wise normal form. */
  lemma {:induction false} CanonIs(raw: Bytes)
    ensures Canon(raw).Ok? <==> Acceptable(raw)
    ensures Canon(raw).Ok? ==> Canon(raw).value == Normal(raw)
  {
    EscapesAreSafe(raw);
    GoodBytesIs(raw);
    if [SLASH] <= raw && GoodBytes(raw) && SafeTokens(Tokens(raw)) {
      assert raw == [] + [SLASH] + raw[1..];
      NormalAcrossSlash([], raw[1..]);
      if raw == [SLASH] {
        assert raw[1..] == [];
      } else {
        var segs := Split(raw[1..], SLASH);
        CanonSegmentsIs(segs);
        JoinSplit(raw[1..], SLASH);
        NormalOfJoin(segs);
      }
    }
  }

  lemma GoodBytesIs(raw: Bytes)
    ensures GoodBytes(raw) <==>
            BACKSLASH !in raw && 0x3F !in raw && 0x23 !in raw && !HasControlOrSpace(raw)
  {
    if BACKSLASH !in raw && 0x3F !in raw && 0x23 !in raw && !HasControlOrSpace(raw) {
      forall i | 0 <= i < |raw| ensures PathByte(raw[i]) {
        assert raw[i] in raw;
      }
    }
  }

  // ---------------------------------------------------------------- the normal form is canonical

  lemma {:induction false} RenderBytes(ts: seq<Token>, b: Byte)
    requires SafeTokens(ts)
    requires b in Render(ts)
    ensures Raw(b) in ts || b == PERCENT || IsHex(b)
  {
    var s := Render(ts);
    if b in Spelling(ts[0]) {
    } else {
      assert b in Render(ts[1..]);
      RenderBytes(ts[1..], b);
    }
  }

  lemma {:induction false} RawTokenBytes(s: Bytes, b: Byte)
    requires Raw(b) in Tokens(s)
    ensures b in s
  {
    if StartsEscape(s) {
      assert Raw(b) in Tokens(s[3..]);
      RawTokenBytes(s[3..], b);
    } else if b != s[0] {
      assert Raw(b) in Tokens(s[1..]);
      RawTokenBytes(s[1..], b);
    }
  }

  /** Normalising introduces no byte a path may not hold, and no slash. */
  lemma {:induction false} NormalBytes(s: Bytes, b: Byte)
    requires SafeTokens(Tokens(s)) && b in Normal(s)
    ensures b in s || IsUnreserved(b) || b == PERCENT
  {
    var ts := Tokens(s);
    NormAllKeepsMeaning(ts);
    RenderBytes(NormAll(ts), b);
    if Raw(b) in NormAll(ts) {
      var i :| 0 <= i < |ts| && Norm(ts[i]) == Raw(b);
      if ts[i].Raw? {
        assert Raw(b) in ts;
        RawTokenBytes(s, b);
      }
    }
  }

  lemma {:induction false} NormalNonempty(s: Bytes)
    requires s != []
    ensures Normal(s) != []
  {
    assert Tokens(s) != [];
    assert NormAll(Tokens(s)) != [];
  }

  lemma {:induction false} SegmentTokensSafe(segs: seq<Bytes>, i: nat)
    requires i < |segs| && SafeTokens(Tokens(Join(segs, SLASH)))
    ensures SafeTokens(Tokens(segs[i]))
  {
    if |segs| > 1 {
      var head, tail := Tokens(segs[0]), Tokens(Join(segs[1..], SLASH));
      TokensAcrossSlash(segs[0], Join(segs[1..], SLASH));
      var all := head + [Raw(SLASH)] + tail;
      forall k | 0 <= k < |head| ensures SafeToken(head[k]) { assert head[k] == all[k]; }
      forall k | 0 <= k < |tail| ensures SafeToken(tail[k]) { assert tail[k] == all[|head| + 1 + k]; }
      if i > 0 { SegmentTokensSafe(segs[1..], i - 1); }
    }
  }

  lemma {:induction false} NormalSegmentIsGood(seg: Bytes)
    requires GoodSegment(seg) && SafeTokens(Tokens(seg)) && SLASH !in seg
    ensures GoodSegment(Normal(seg)) && SLASH !in Normal(seg)
  {
    TokensOfNormal(seg);
    NormalNonempty(seg);
    if SLASH in Normal(seg) { NormalBytes(seg, SLASH); }
  }

  /** The normal form splits into the normal forms of the segments. */
  lemma {:induction false} NormalSegments(raw: Bytes)
    requires Acceptable(raw) && raw != [SLASH]
    ensures [SLASH] <= Normal(raw)
    ensures Split(Normal(raw)[1..], SLASH) == NormalEach(Split(raw[1..], SLASH))
    ensures GoodSegments(Split(Normal(raw)[1..], SLASH))
  {
    var segs := Split(raw[1..], SLASH);
    assert raw == [] + [SLASH] + raw[1..];
    NormalAcrossSlash([], raw[1..]);
    JoinSplit(raw[1..], SLASH);
    NormalOfJoin(segs);
    TokensAcrossSlash([], raw[1..]);
    assert Normal(raw)[1..] == Join(NormalEach(segs), SLASH);
    forall k | 0 <= k < |Tokens(raw[1..])| ensures SafeToken(Tokens(raw[1..])[k]) {
      assert Tokens(raw)[k + 1] == Tokens(raw[1..])[k];
    }
    forall i | 0 <= i < |segs|
      ensures GoodSegment(NormalEach(segs)[i]) && SLASH !in NormalEach(segs)[i]
    {
      SegmentTokensSafe(segs, i);
      assert GoodSegment(segs[i]) && segs[i] in segs;
      NormalSegmentIsGood(segs[i]);
    }
    forall p | p in NormalEach(segs) ensures SLASH !in p {
      var i :| 0 <= i < |segs| && p == NormalEach(segs)[i];
    }
    SplitJoin(NormalEach(segs), SLASH);
  }

  /** Idempotence: an accepted path's canonical form is its own canonical form. */
  lemma {:induction false} CanonIdempotent(raw: Bytes)
    requires Canon(raw).Ok?
    ensures Canon(Canon(raw).value) == Canon(raw)
  {
    CanonIs(raw);
    var c := Normal(raw);
    TokensOfNormal(raw);
    forall i | 0 <= i < |c| ensures PathByte(c[i]) {
      assert c[i] in c;
      NormalBytes(raw, c[i]);
      if c[i] in raw { var k :| 0 <= k < |raw| && raw[k] == c[i]; }
    }
    if raw == [SLASH] {
      assert Tokens(raw) == [Raw(SLASH)] + Tokens([]);
      assert Render(NormAll(Tokens(raw))) == [SLASH] + Render([]);
      assert c == [SLASH];
    } else {
      NormalSegments(raw);
    }
    assert Acceptable(c);
    CanonIs(c);
  }

  /** Segments, counting none for the bare root. */
  function PathSegments(path: Bytes): seq<Bytes> {
    if path == [SLASH] || path == [] then [] else Split(path[1..], SLASH)
  }

  /** Canonicalising keeps the segment count; each segment becomes its own normal form. */
  lemma {:induction false} CanonKeepsSegments(raw: Bytes)
    requires Canon(raw).Ok?
    ensures PathSegments(Canon(raw).value) == NormalEach(PathSegments(raw))
    ensures |PathSegments(Canon(raw).value)| == |PathSegments(raw)|
  {
    CanonIs(raw);
    if raw != [SLASH] {
      NormalSegments(raw);
      var segs := Split(raw[1..], SLASH);
      assert Normal(raw) != [SLASH] by {
        assert GoodSegment(Split(Normal(raw)[1..], SLASH)[0]);
      }
    }
  }

  /**
    The canonical form is a complete invariant: accepted paths share it exactly when they differ
    only in hex case and in escaping of unreserved characters.
   */
  lemma CanonIsCompleteInvariant(s: Bytes, t: Bytes)
    requires Canon(s).Ok? && Canon(t).Ok?
    ensures Canon(s) == Canon(t) <==> Equivalent(s, t)
  {
    CanonIs(s);
    CanonIs(t);
    NormalDecidesEquivalence(s, t);
  }

  /** Canonical paths: the fixed points of Canonicalise. */
  predicate Canonical(p: Bytes) { Canon(p) == Ok(p) }

  // ---------------------------------------------------------------- the code

  method CheckEscapesWellFormed(raw: Bytes) returns (fault: Option<PathError>)
    ensures fault == EscapeFault(raw)
  {
    var i := 0;
    while i < |raw|
      invariant 0 <= i <= |raw|
      invariant EscapeFault(raw) == EscapeFault(raw[i..])
    {
      assert raw[i..][1..] == raw[i + 1..];
      if raw[i] != PERCENT {
        i := i + 1;
        continue;
      }
      if i + 2 >= |raw| || !IsHex(raw[i + 1]) || !IsHex(raw[i + 2]) {
        return Some(MalformedEscape);
      }
      var b := HexByte(raw[i + 1], raw[i + 2]);
      if b == SLASH || b == BACKSLASH { return Some(EncodedSeparator); }
      assert raw[i..][3..] == raw[i + 3..];
      i := i + 3;
    }
    return None;
  }

  method CanonicaliseSegment(seg: Bytes) returns (r: Result<Bytes, PathError>)
    requires SafeTokens(Tokens(seg))
    ensures r == CanonSegment(seg)
  {
    if seg == [] { return Err(EmptySegment); }
    if seg == ONE_DOT || seg == TWO_DOTS { return Err(DotSegment); }
    var decoded: Bytes, normalised: Bytes := [], [];
    var i := 0;
    assert seg[0..] == seg;
    while i < |seg|
      invariant 0 <= i <= |seg|
      invariant SafeTokens(Tokens(seg[i..]))
      invariant ReadSoFar(seg, i, decoded, normalised)
    {
      SafeHead(seg[i..]);
      if seg[i] != PERCENT {
        ReadRaw(seg, i, decoded, normalised);
        decoded := decoded + [seg[i]];
        normalised := normalised + [seg[i]];
        i := i + 1;
      } else {
        ReadEscape(seg, i, decoded, normalised);
        var b := HexByte(seg[i + 1], seg[i + 2]);
        decoded := decoded + [b];
        if IsUnreserved(b) {
          normalised := normalised + [b];
        } else {
          normalised := normalised + [PERCENT, HexDigit(b / 16), HexDigit(b % 16)];
        }
        i := i + 3;
      }
    }
    assert seg[i..] == [] && Normal([]) == [] && Octets(Tokens([])) == [];
    assert Octets(Tokens(seg)) == decoded && Normal(seg) == normalised;
    if IsDots(decoded) { return Err(DotSegment); }
    return Ok(normalised);
  }

  /** The two builders hold the decoding and the normal form of what has been read. */
  ghost predicate ReadSoFar(seg: Bytes, i: nat, decoded: Bytes, normalised: Bytes)
    requires i <= |seg|
  {
    Octets(Tokens(seg)) == decoded + Octets(Tokens(seg[i..])) && Normal(seg) == normalised + Normal(seg[i..])
  }

  lemma ReadRaw(seg: Bytes, i: nat, decoded: Bytes, normalised: Bytes)
    requires i < |seg| && SafeTokens(Tokens(seg[i..])) && ReadSoFar(seg, i, decoded, normalised)
    requires seg[i] != PERCENT
    ensures SafeTokens(Tokens(seg[i + 1..]))
    ensures ReadSoFar(seg, i + 1, decoded + [seg[i]], normalised + [seg[i]])
  {
    var s := seg[i..];
    SafeHead(s);
    assert s[1..] == seg[i + 1..];
    hide *;
    Assoc(decoded, [seg[i]], Octets(Tokens(s[1..])));
    Assoc(normalised, [seg[i]], Normal(s[1..]));
  }

  lemma ReadEscape(seg: Bytes, i: nat, decoded: Bytes, normalised: Bytes)
    requires i < |seg| && SafeTokens(Tokens(seg[i..])) && ReadSoFar(seg, i, decoded, normalised)
    requires seg[i] == PERCENT
    ensures StartsEscape(seg[i..]) && SafeTokens(Tokens(seg[i + 3..]))
    ensures var t := Esc(seg[i + 1], seg[i + 2]);
            ReadSoFar(seg, i + 3, decoded + [Octet(t)], normalised + Spelling(Norm(t)))
  {
    var s, t := seg[i..], Esc(seg[i + 1], seg[i + 2]);
    SafeHead(s);
    assert s[3..] == seg[i + 3..];
    Assoc(decoded, [Octet(t)], Octets(Tokens(s[3..])));
    Assoc(normalised, Spelling(Norm(t)), Normal(s[3..]));
  }

  /** One step of reading a non-empty text: its first token, and what it adds to each builder. */
  lemma SafeHead(s: Bytes)
    requires s != [] && SafeTokens(Tokens(s))
    ensures s[0] == PERCENT ==> StartsEscape(s)
    ensures var rest := if StartsEscape(s) then s[3..] else s[1..];
            var t := if StartsEscape(s) then Esc(s[1], s[2]) else Raw(s[0]);
            SafeTokens(Tokens(rest)) &&
            Octets(Tokens(s)) == [Octet(t)] + Octets(Tokens(rest)) &&
            Normal(s) == Spelling(Norm(t)) + Normal(rest)
  {
    var ts := Tokens(s);
    assert SafeToken(ts[0]);
    var rest := if StartsEscape(s) then s[3..] else s[1..];
    assert ts[1..] == Tokens(rest);
    forall k | 0 <= k < |Tokens(rest)| ensures SafeToken(Tokens(rest)[k]) {
      assert ts[k + 1] == Tokens(rest)[k];
    }
    assert NormAll(ts)[1..] == NormAll(Tokens(rest));
  }

  method Canonicalise(raw: Bytes) returns (r: Result<Bytes, PathError>)
    ensures r == Canon(raw)
  {
    if !([SLASH] <= raw) { return Err(NotAbsolute); }
    if BACKSLASH in raw { return Err(BackslashInPath); }
    if 0x3F in raw || 0x23 in raw { return Err(QueryOrFragment); }
    for i := 0 to |raw|
      invariant forall j | 0 <= j < i :: !ControlOrSpaceByte(raw[j])
    {
      if raw[i] <= 0x20 || raw[i] == 0x7F { return Err(ControlOrSpace); }
    }
    var fault := CheckEscapesWellFormed(raw);
    if fault.Some? { return Err(fault.value); }
    if raw == [SLASH] { return Ok([SLASH]); }
    var segments := Split(raw[1..], SLASH);
    var out: seq<Bytes> := [];
    TryStart(CanonSegment, segments);
    for i := 0 to |segments|
      invariant TrySoFar(CanonSegment, segments, i, out)
    {
      assert SafeTokens(Tokens(segments[i])) by { SplitTokensSafe(raw, i); }
      var normalised := CanonicaliseSegment(segments[i]);
      TryStep(CanonSegment, segments, i, out);
      if normalised.Err? { return Err(normalised.error); }
      out := out + [normalised.value];
    }
    TryEnd(CanonSegment, segments, out);
    return Ok([SLASH] + Join(out, SLASH));
  }

  lemma {:induction false} SplitTokensSafe(raw: Bytes, i: nat)
    requires [SLASH] <= raw && EscapeFault(raw).None? && i < |Split(raw[1..], SLASH)|
    ensures SafeTokens(Tokens(Split(raw[1..], SLASH)[i]))
  {
    EscapesAreSafe(raw);
    assert raw == [] + [SLASH] + raw[1..];
    TokensAcrossSlash([], raw[1..]);
    forall k | 0 <= k < |Tokens(raw[1..])| ensures SafeToken(Tokens(raw[1..])[k]) {
      assert Tokens(raw)[k + 1] == Tokens(raw[1..])[k];
    }
    JoinSplit(raw[1..], SLASH);
    SegmentTokensSafe(Split(raw[1..], SLASH), i);
  }
}
