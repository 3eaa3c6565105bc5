/**
  Request path templates (routepath.Template): parsing, static coverage by a route glob, and
  expansion; and what coverage proves about every expansion.
 */
module Template {
  import opened Text
  import opened RoutePath
  import opened Glob
  import opened Options

  datatype TemplateError =
    | BadPath(path: PathError) | TemplateBrace | PlaceholderName | PlaceholderValue | PlaceholderAbsent

  /** One segment: canonical literal text, or a named placeholder. */
  datatype Seg = LiteralText(text: Bytes) | Placeholder(name: Bytes)

  datatype PathTemplate = PathTemplate(segments: seq<Seg>)

  const OPEN: Byte := 0x7B
  const CLOSE: Byte := 0x7D
  const STAND_IN: Bytes := [0x78]

  // ---------------------------------------------------------------- parsing

  predicate HasBrace(s: Bytes) { OPEN in s || CLOSE in s }

  predicate IsAlpha(b: Byte) { 0x41 <= b <= 0x5A || 0x61 <= b <= 0x7A }

  predicate IsWord(b: Byte) { IsAlpha(b) || 0x30 <= b <= 0x39 || b == 0x5F }

  /** ^[A-Za-z][A-Za-z0-9_]{0,31}$ */
  predicate ValidName(name: Bytes) {
    1 <= |name| <= 32 && IsAlpha(name[0]) && forall i | 0 <= i < |name| :: IsWord(name[i])
  }

  /** The placeholder name a written segment encloses, or none for a literal segment. */
  function PartName(part: Bytes): Result<Option<Bytes>, TemplateError> {
    if !HasBrace(part) then Ok(None)
    else if |part| < 3 || part[0] != OPEN || part[|part| - 1] != CLOSE || HasBrace(part[1..|part| - 1]) then
      Err(TemplateBrace)
    else if !ValidName(part[1..|part| - 1]) then Err(PlaceholderName)
    else Ok(Some(part[1..|part| - 1]))
  }

  function PartNames(parts: seq<Bytes>): Result<seq<Option<Bytes>>, TemplateError> {
    TryMap(PartName, parts)
  }

  function StandIn(part: Bytes, name: Option<Bytes>): Bytes {
    if name.Some? then STAND_IN else part
  }

  function StandIns(parts: seq<Bytes>, names: seq<Option<Bytes>>): seq<Bytes>
    requires |parts| == |names|
  {
    seq(|parts|, i requires 0 <= i < |parts| => StandIn(parts[i], names[i]))
  }

  function Assemble(names: seq<Option<Bytes>>, canonical: seq<Bytes>): seq<Seg>
    requires |names| == |canonical|
  {
    seq(|names|, i requires 0 <= i < |names| =>
      if names[i].Some? then Placeholder(names[i].value) else LiteralText(canonical[i]))
  }

  /** The result of ParseTemplate, in its order of checks. */
  function Parsed(raw: Bytes): Result<PathTemplate, TemplateError> {
    if raw == [SLASH] then Ok(PathTemplate([]))
    else if !([SLASH] <= raw) then Err(BadPath(NotAbsolute))
    else
      var parts := Split(raw[1..], SLASH);
      var names := PartNames(parts);
      if names.Err? then Err(names.error)
      else
        var c := Canon([SLASH] + Join(StandIns(parts, names.value), SLASH));
        if c.Err? then Err(BadPath(c.error))
        else
          StandInCount(parts, names.value);
          Ok(PathTemplate(Assemble(names.value, Split(c.value[1..], SLASH))))
  }

  lemma {:induction false} StandInCount(parts: seq<Bytes>, names: seq<Option<Bytes>>)
    requires |parts| == |names| >= 1
    requires forall p | p in parts :: SLASH !in p
    requires Canon([SLASH] + Join(StandIns(parts, names), SLASH)).Ok?
    ensures var s := StandIns(parts, names);
            var c := Canon([SLASH] + Join(s, SLASH)).value;
            |c| >= 1 && Split(([SLASH] + Join(s, SLASH))[1..], SLASH) == s && |Split(c[1..], SLASH)| == |parts|
  {
    var s := StandIns(parts, names);
    var path := [SLASH] + Join(s, SLASH);
    assert path[1..] == Join(s, SLASH);
    forall p | p in s ensures SLASH !in p {
      var i :| 0 <= i < |s| && s[i] == p;
      assert parts[i] in parts;
    }
    SplitJoin(s, SLASH);
    CanonIs(path);
    if path != [SLASH] { NormalSegments(path); }
    else { assert Normal([SLASH]) == [SLASH] by { CanonIs([SLASH]); } }
  }

  lemma StandInsStep(parts: seq<Bytes>, i: nat, names: seq<Option<Bytes>>, n: Option<Bytes>)
    requires |names| == i < |parts|
    ensures StandIns(parts[..i + 1], names + [n]) == StandIns(parts[..i], names) + [StandIn(parts[i], n)]
  {
  }

  method ReadParts(parts: seq<Bytes>)
    returns (r: Result<seq<Option<Bytes>>, TemplateError>, standIn: seq<Bytes>)
    ensures r == PartNames(parts)
    ensures r.Ok? ==> standIn == StandIns(parts, r.value)
  {
    standIn := [];
    var names: seq<Option<Bytes>> := [];
    TryStart(PartName, parts);
    for i := 0 to |parts|
      invariant TrySoFar(PartName, parts, i, names)
      invariant standIn == StandIns(parts[..i], names)
    {
      TryStep(PartName, parts, i, names);
      var name := PartName(parts[i]);
      if name.Err? { return Err(name.error), standIn; }
      StandInsStep(parts, i, names, name.value);
      names := names + [name.value];
      standIn := standIn + [if name.value.Some? then STAND_IN else parts[i]];
    }
    TryEnd(PartName, parts, names);
    assert parts[..|parts|] == parts;
    return Ok(names), standIn;
  }

  method ReadLiterals(names: seq<Option<Bytes>>, segs: seq<Bytes>) returns (segments: seq<Seg>)
    requires |names| == |segs|
    ensures segments == Assemble(names, segs)
  {
    segments := [];
    for i := 0 to |segs|
      invariant segments == Assemble(names, segs)[..i]
    {
      segments := segments + [if names[i].Some? then Placeholder(names[i].value) else LiteralText(segs[i])];
    }
  }

  method ParseTemplate(raw: Bytes) returns (r: Result<PathTemplate, TemplateError>)
    ensures r == Parsed(raw)
  {
    if raw == [SLASH] { return Ok(PathTemplate([])); }
    if !([SLASH] <= raw) { return Err(BadPath(NotAbsolute)); }
    var parts := Split(raw[1..], SLASH);
    var names, standIn := ReadParts(parts);
    if names.Err? { return Err(names.error); }
    var canonical := Canonicalise([SLASH] + Join(standIn, SLASH));
    if canonical.Err? { return Err(BadPath(canonical.error)); }
    StandInCount(parts, names.value);
    var segments := ReadLiterals(names.value, Split(canonical.value[1..], SLASH));
    return Ok(PathTemplate(segments));
  }

  // ---------------------------------------------------------------- canonical segments

  lemma RootIsCanonical()
    ensures Canonical([SLASH])
  {
    assert EscapeFault([SLASH]) == EscapeFault([SLASH][1..]);
  }

  /** A segment that may stand in a canonical path as it is. */
  predicate CanonicalSegment(seg: Bytes) {
    GoodSegment(seg) && SafeTokens(Tokens(seg)) && GoodBytes(seg) && SLASH !in seg && Normal(seg) == seg
  }

  lemma {:induction false} JoinedTokensSafe(segs: seq<Bytes>)
    requires |segs| >= 1 && forall i | 0 <= i < |segs| :: CanonicalSegment(segs[i])
    ensures SafeTokens(Tokens(Join(segs, SLASH))) && GoodBytes(Join(segs, SLASH))
  {
    assert CanonicalSegment(segs[0]);
    if |segs| > 1 {
      JoinedTokensSafe(segs[1..]);
      TokensAcrossSlash(segs[0], Join(segs[1..], SLASH));
    }
  }

  /** A non-empty list of canonical segments joins to a canonical path, and can be read back from it. */
  lemma {:induction false} JoinedIsCanonical(segs: seq<Bytes>)
    requires |segs| >= 1 && forall i | 0 <= i < |segs| :: CanonicalSegment(segs[i])
    ensures Canonical([SLASH] + Join(segs, SLASH))
    ensures PathSegments([SLASH] + Join(segs, SLASH)) == segs
    ensures [SLASH] + Join(segs, SLASH) != [SLASH]
  {
    var path := [SLASH] + Join(segs, SLASH);
    JoinedTokensSafe(segs);
    TokensAcrossSlash([], Join(segs, SLASH));
    assert path == [] + [SLASH] + Join(segs, SLASH);
    assert path[1..] == Join(segs, SLASH);
    forall p | p in segs ensures SLASH !in p {
      var i :| 0 <= i < |segs| && segs[i] == p;
      assert CanonicalSegment(segs[i]);
    }
    SplitJoin(segs, SLASH);
    assert CanonicalSegment(segs[0]);
    assert path != [SLASH] by { assert Split(path[1..], SLASH)[0] != []; }
    forall i | 0 <= i < |segs| ensures GoodSegment(segs[i]) { assert CanonicalSegment(segs[i]); }
    assert Acceptable(path);
    CanonIs(path);
    NormalAcrossSlash([], Join(segs, SLASH));
    NormalOfJoin(segs);
    forall i | 0 <= i < |segs| ensures NormalEach(segs)[i] == segs[i] { assert CanonicalSegment(segs[i]); }
    assert NormalEach(segs) == segs;
    assert Normal(path) == path;
  }

  lemma {:induction false} CanonicalSegments(c: Bytes, i: nat)
    requires Canonical(c) && i < |PathSegments(c)|
    ensures CanonicalSegment(PathSegments(c)[i])
  {
    var segs := PathSegments(c);
    CanonIs(c);
    CanonKeepsSegments(c);
    assert segs[i] in segs;
    assert c == [] + [SLASH] + c[1..];
    TokensAcrossSlash([], c[1..]);
    forall k | 0 <= k < |Tokens(c[1..])| ensures SafeToken(Tokens(c[1..])[k]) {
      assert Tokens(c)[k + 1] == Tokens(c[1..])[k];
    }
    JoinSplit(c[1..], SLASH);
    SegmentTokensSafe(segs, i);
    SegmentBytesGood(segs, i);
    assert GoodSegment(segs[i]);
  }

  lemma {:induction false} SegmentBytesGood(segs: seq<Bytes>, i: nat)
    requires i < |segs| && GoodBytes(Join(segs, SLASH))
    ensures GoodBytes(segs[i])
  {
    if |segs| > 1 {
      var all, rest := Join(segs, SLASH), Join(segs[1..], SLASH);
      if i == 0 {
        forall k | 0 <= k < |segs[0]| ensures PathByte(segs[0][k]) { assert all[k] == segs[0][k]; }
      } else {
        forall k | 0 <= k < |rest| ensures PathByte(rest[k]) { assert all[|segs[0]| + 1 + k] == rest[k]; }
        SegmentBytesGood(segs[1..], i - 1);
      }
    }
  }

  /** Rebuilding a canonical path from its segments. */
  lemma RejoinCanonical(c: Bytes)
    requires Canonical(c) && c != [SLASH]
    ensures [SLASH] <= c && |PathSegments(c)| >= 1 && c == [SLASH] + Join(PathSegments(c), SLASH)
  {
    CanonIs(c);
    JoinSplit(c[1..], SLASH);
  }

  /** Canonical paths are exactly the root and the rooted paths all of whose segments are canonical. */
  lemma {:induction false} CanonicalPathIs(c: Bytes)
    ensures Canonical(c) <==>
            c == [SLASH] ||
            ([SLASH] <= c && forall i | 0 <= i < |PathSegments(c)| :: CanonicalSegment(PathSegments(c)[i]))
  {
    hide Canonical, CanonicalSegment, Split, Join, Canon;
    if c == [SLASH] {
      RootIsCanonical();
    } else {
      if Canonical(c) {
        RejoinCanonical(c);
        forall i | 0 <= i < |PathSegments(c)| ensures CanonicalSegment(PathSegments(c)[i]) { CanonicalSegments(c, i); }
      }
      if [SLASH] <= c && forall i | 0 <= i < |PathSegments(c)| :: CanonicalSegment(PathSegments(c)[i]) {
        JoinSplit(c[1..], SLASH);
        assert c == [SLASH] + c[1..];
        JoinedIsCanonical(PathSegments(c));
      }
    }
  }

  // ---------------------------------------------------------------- values and expansion

  predicate ValueByte(b: Byte) { IsUnreserved(b) || b == 0x3A || b == 0x40 }

  predicate ValidValue(v: Bytes) {
    v != [] && |v| <= 128 && !IsDots(v) && forall i | 0 <= i < |v| :: ValueByte(v[i])
  }

  /** routepath.ValidPlaceholderValue. */
  method ValidPlaceholderValue(v: Bytes) returns (ok: bool)
    ensures ok <==> ValidValue(v)
    ensures ok ==> CanonicalSegment(v)
  {
    if v == [] || |v| > 128 || v == ONE_DOT || v == TWO_DOTS { return false; }
    for i := 0 to |v|
      invariant forall j | 0 <= j < i :: ValueByte(v[j])
    {
      if !IsUnreserved(v[i]) && v[i] != 0x3A && v[i] != 0x40 { return false; }
    }
    ValueIsCanonical(v);
    return true;
  }

  lemma {:induction false} PlainTokens(v: Bytes)
    requires PERCENT !in v
    ensures |Tokens(v)| == |v| && forall i | 0 <= i < |v| :: Tokens(v)[i] == Raw(v[i])
    ensures Normal(v) == v
  {
    if v != [] {
      PlainTokens(v[1..]);
      var ts := Tokens(v[1..]);
      assert v[0] in v && Tokens(v) == [Raw(v[0])] + ts;
      assert NormAll(Tokens(v)) == [Raw(v[0])] + NormAll(ts);
      assert ([Raw(v[0])] + NormAll(ts))[1..] == NormAll(ts);
      assert Normal(v) == [v[0]] + Normal(v[1..]);
    }
  }

  /** A placeholder value is one segment under every reading: it needs no escaping and no rewriting. */
  lemma {:induction false} ValueIsCanonical(v: Bytes)
    requires ValidValue(v)
    ensures CanonicalSegment(v)
  {
    assert PERCENT !in v;
    PlainTokens(v);
    assert Octets(Tokens(v)) == v;
  }

  predicate TemplateOk(t: PathTemplate) {
    forall i | 0 <= i < |t.segments| ::
      match t.segments[i]
      case LiteralText(text) => CanonicalSegment(text)
      case Placeholder(name) => ValidName(name)
  }

  function Filled(s: Seg, values: map<Bytes, Bytes>): Result<Bytes, TemplateError> {
    match s
    case LiteralText(text) => Ok(text)
    case Placeholder(name) =>
      if name !in values then Err(PlaceholderAbsent)
      else if !ValidValue(values[name]) then Err(PlaceholderValue)
      else Ok(values[name])
  }

  function Filler(values: map<Bytes, Bytes>): Seg -> Result<Bytes, TemplateError> {
    s => Filled(s, values)
  }

  function FilledAll(segs: seq<Seg>, values: map<Bytes, Bytes>): Result<seq<Bytes>, TemplateError>
  {
    var f := Filler(values);
    assert forall i | 0 <= i < |segs| :: f(segs[i]) == Filled(segs[i], values);
    TryMap(f, segs)
  }

  /** The result of Template.Expand. */
  function Expanded(t: PathTemplate, values: map<Bytes, Bytes>): Result<Bytes, TemplateError> {
    if t.segments == [] then Ok([SLASH])
    else
      var out := FilledAll(t.segments, values);
      if out.Err? then Err(out.error)
      else
        var c := Canon([SLASH] + Join(out.value, SLASH));
        if c.Err? then Err(BadPath(c.error)) else Ok(c.value)
  }

  method Expand(t: PathTemplate, values: map<Bytes, Bytes>) returns (r: Result<Bytes, TemplateError>)
    ensures r == Expanded(t, values)
  {
    if |t.segments| == 0 { return Ok([SLASH]); }
    var out: seq<Bytes> := [];
    ghost var fill := Filler(values);
    TryStart(fill, t.segments);
    for i := 0 to |t.segments|
      invariant TrySoFar(fill, t.segments, i, out)
    {
      var s := t.segments[i];
      TryStep(fill, t.segments, i, out);
      if s.LiteralText? {
        out := out + [s.text];
      } else {
        if s.name !in values { return Err(PlaceholderAbsent); }
        var valid := ValidPlaceholderValue(values[s.name]);
        if !valid { return Err(PlaceholderValue); }
        out := out + [values[s.name]];
      }
    }
    TryEnd(fill, t.segments, out);
    var c := Canonicalise([SLASH] + Join(out, SLASH));
    if c.Err? { return Err(BadPath(c.error)); }
    return Ok(c.value);
  }

  /** Expand's last Canonicalise never rejects and never rewrites. */
  lemma {:induction false} ExpandedIs(t: PathTemplate, values: map<Bytes, Bytes>)
    requires TemplateOk(t)
    ensures Expanded(t, values).Ok? <==> FilledAll(t.segments, values).Ok?
    ensures Expanded(t, values).Ok? ==>
              Canonical(Expanded(t, values).value) &&
              PathSegments(Expanded(t, values).value) == FilledAll(t.segments, values).value &&
              (t.segments != [] ==> Expanded(t, values).value != [SLASH])
  {
    var out := FilledAll(t.segments, values);
    if t.segments == [] {
      RootIsCanonical();
    } else if out.Ok? {
      forall i | 0 <= i < |out.value| ensures CanonicalSegment(out.value[i]) {
        assert Filled(t.segments[i], values) == Ok(out.value[i]);
        if t.segments[i].Placeholder? { ValueIsCanonical(out.value[i]); }
      }
      JoinedIsCanonical(out.value);
    }
  }

  // ---------------------------------------------------------------- what parsing gives

  lemma {:induction false} ParsedIsOk(raw: Bytes)
    requires Parsed(raw).Ok?
    ensures TemplateOk(Parsed(raw).value)
    ensures |Parsed(raw).value.segments| == |PathSegments(raw)|
  {
    if raw != [SLASH] {
      var t := Parsed(raw).value;
      var parts := Split(raw[1..], SLASH);
      var names := PartNames(parts).value;
      var path := [SLASH] + Join(StandIns(parts, names), SLASH);
      var c := Canon(path).value;
      StandInCount(parts, names);
      AssembledIsOk(parts, names, path);
    }
  }

  lemma {:induction false} AssembledIsOk(parts: seq<Bytes>, names: seq<Option<Bytes>>, path: Bytes)
    requires |parts| == |names| && forall i | 0 <= i < |parts| :: PartName(parts[i]) == Ok(names[i])
    requires path != [SLASH] && Canon(path).Ok?
    requires |Split(Canon(path).value[1..], SLASH)| == |parts|
    ensures TemplateOk(PathTemplate(Assemble(names, Split(Canon(path).value[1..], SLASH))))
  {
    var c := Canon(path).value;
    CanonIdempotent(path);
    CanonKeepsSegments(path);
    var segs := Split(c[1..], SLASH);
    assert PathSegments(c) == segs;
    hide Canon, CanonicalSegment, Split, PathSegments;
    forall i | 0 <= i < |names| && names[i].Some? ensures ValidName(names[i].value) {
      assert PartName(parts[i]) == Ok(names[i]);
    }
    forall i | 0 <= i < |segs| ensures CanonicalSegment(segs[i]) {
      CanonicalSegments(c, i);
    }
  }

  /** A path without braces is a template whose only expansion is its canonical form. */
  lemma {:induction false} PlainPathExpandsToCanonical(raw: Bytes, values: map<Bytes, Bytes>)
    requires !HasBrace(raw)
    ensures Parsed(raw).Ok? <==> Canon(raw).Ok?
    ensures Parsed(raw).Ok? ==> Expanded(Parsed(raw).value, values) == Ok(Canon(raw).value)
    ensures Parsed(raw).Err? ==> Parsed(raw).error == BadPath(Canon(raw).error)
  {
    if raw == [SLASH] {
      RootIsCanonical();
    } else if [SLASH] <= raw {
      var parts := Split(raw[1..], SLASH);
      JoinSplit(raw[1..], SLASH);
      forall i | 0 <= i < |parts| ensures !HasBrace(parts[i]) {
        if OPEN in parts[i] { PartByteInJoin(parts, i, OPEN); }
        if CLOSE in parts[i] { PartByteInJoin(parts, i, CLOSE); }
      }
      var names := PartNames(parts).value;
      assert StandIns(parts, names) == parts;
      assert [SLASH] + raw[1..] == raw;
      if Canon(raw).Ok? {
        StandInCount(parts, names);
        CanonKeepsSegments(raw);
        CanonIdempotent(raw);
        LiteralsExpand(Canon(raw).value, names, values);
      }
    }
  }

  lemma {:induction false} LiteralsExpand(c: Bytes, names: seq<Option<Bytes>>, values: map<Bytes, Bytes>)
    requires Canonical(c) && c != [SLASH] && |names| == |PathSegments(c)|
    requires forall i | 0 <= i < |names| :: names[i] == None
    ensures Expanded(PathTemplate(Assemble(names, PathSegments(c))), values) == Ok(c)
  {
    var segs := PathSegments(c);
    var t := PathTemplate(Assemble(names, segs));
    assert FilledAll(t.segments, values).value == segs;
    RejoinCanonical(c);
  }

  lemma {:induction false} PartByteInJoin(parts: seq<Bytes>, i: nat, b: Byte)
    requires i < |parts| && b in parts[i]
    ensures b in Join(parts, SLASH)
  {
    if |parts| > 1 && i > 0 { PartByteInJoin(parts[1..], i - 1, b); }
  }

  // ---------------------------------------------------------------- coverage

  const ONE_STAR: Bytes := [STAR]

  ghost predicate SegCovered(s: Seg, glob: Bytes) {
    match s
    case LiteralText(text) => SegmentGlob(glob, text)
    case Placeholder(_) => glob == ONE_STAR
  }

  /** The verdict of Template.CoveredBy. */
  ghost predicate Covered(t: PathTemplate, pattern: Bytes) {
    Canon(pattern).Ok? &&
    var g := Canon(pattern).value;
    if t.segments == [] then g == [SLASH]
    else
      g != [SLASH] && |Segments(g)| == |t.segments| &&
      forall i | 0 <= i < |t.segments| :: SegCovered(t.segments[i], Segments(g)[i])
  }

  method CoveredBy(t: PathTemplate, pattern: Bytes) returns (ok: bool)
    ensures ok <==> Covered(t, pattern)
  {
    var canonical := Canonicalise(pattern);
    if canonical.Err? { return false; }
    if |t.segments| == 0 { return canonical.value == [SLASH]; }
    var globSegments := Segments(canonical.value);
    if canonical.value == [SLASH] || |globSegments| != |t.segments| { return false; }
    for i := 0 to |t.segments|
      invariant forall j | 0 <= j < i :: SegCovered(t.segments[j], globSegments[j])
    {
      match t.segments[i]
      case Placeholder(_) =>
        if globSegments[i] != ONE_STAR { return false; }
      case LiteralText(text) =>
        var m := MatchSegment(globSegments[i], text);
        if !m { return false; }
    }
    return true;
  }

  predicate AllStars(p: Bytes) { forall i | 0 <= i < |p| :: p[i] == STAR }

  /** A non-empty run of stars matches every segment. */
  lemma {:induction false} StarsMatchAll(p: Bytes, s: Bytes)
    requires AllStars(p) && p != []
    ensures SegmentGlob(p, s)
  {
    var parts := Split(p, STAR);
    StarParts(p);
    EmptyPartsMatchAll(parts, s);
  }

  lemma {:induction false} StarParts(p: Bytes)
    requires AllStars(p)
    ensures |Split(p, STAR)| == |p| + 1 && forall i | 0 <= i < |Split(p, STAR)| :: Split(p, STAR)[i] == []
  {
    if p != [] { StarParts(p[1..]); }
  }

  lemma {:induction false} EmptyPartsMatchAll(parts: seq<Bytes>, s: Bytes)
    requires |parts| >= 2 && forall i | 0 <= i < |parts| :: parts[i] == []
    ensures Woven(parts, s)
  {
    if |parts| == 2 {
      assert parts == [[], []];
      OneGap(s);
    } else {
      var rest := parts[2..];
      assert parts == [[], []] + rest;
      EmptyMiddle(rest, s);
      assert parts[1..] == [[]] + rest;
      EmptyPartsMatchAll(parts[1..], s);
    }
  }

  /** Every literal byte of a pattern occurs in whatever it matches. */
  lemma {:induction false} LiteralByteOccurs(parts: seq<Bytes>, fills: seq<Bytes>, b: Byte)
    requires |parts| == |fills| + 1
    requires exists i :: 0 <= i < |parts| && b in parts[i]
    ensures b in Weave(parts, fills)
  {
    var i :| 0 <= i < |parts| && b in parts[i];
    if i > 0 {
      assert b in parts[1..][i - 1];
      LiteralByteOccurs(parts[1..], fills[1..], b);
    }
  }

  lemma {:induction false} SplitKeepsByte(p: Bytes, k: nat) returns (i: nat)
    requires k < |p| && p[k] != STAR
    ensures i < |Split(p, STAR)| && p[k] in Split(p, STAR)[i]
  {
    var rest := Split(p[1..], STAR);
    if k == 0 {
      i := 0;
    } else {
      var j := SplitKeepsByte(p[1..], k - 1);
      i := if p[0] == STAR then j + 1 else j;
    }
  }

  /** A pattern that matches two one-byte values with no byte in common is a run of stars. */
  lemma {:induction false} MatchesBothIsStars(p: Bytes, a: Byte, b: Byte)
    requires a != b && SegmentGlob(p, [a]) && SegmentGlob(p, [b])
    ensures AllStars(p) && p != []
  {
    var parts := Split(p, STAR);
    var fa :| WovenBy(parts, [a], fa);
    var fb :| WovenBy(parts, [b], fb);
    forall k | 0 <= k < |p| ensures p[k] == STAR {
      if p[k] != STAR {
        var i := SplitKeepsByte(p, k);
        LiteralByteOccurs(parts, fa, p[k]);
        LiteralByteOccurs(parts, fb, p[k]);
      }
    }
    if p == [] { NoGap([], [a]); }
  }

  /** Every path the template can expand to matches the canonical glob g. */
  ghost predicate EveryExpansionMatches(t: PathTemplate, g: Bytes) {
    forall values :: Expanded(t, values).Ok? ==> PathGlob(g, Expanded(t, values).value)
  }

  /** No placeholder meets a run of two or more stars, and the root template meets only "/". */
  predicate NoWideStars(t: PathTemplate, g: Bytes) {
    (t.segments == [] ==> g == [SLASH]) &&
    (|Segments(g)| == |t.segments| ==>
       forall i | 0 <= i < |t.segments| ::
         t.segments[i].Placeholder? && AllStars(Segments(g)[i]) ==> |Segments(g)[i]| <= 1)
  }

  lemma SegmentsOfCanonical(c: Bytes)
    requires Canonical(c)
    ensures c != [SLASH] ==> Segments(c) == PathSegments(c)
    ensures c == [SLASH] ==> Segments(c) == [[]]
  {
    CanonIs(c);
  }

  /** Coverage is sound: whatever the values, the expansion is canonical and inside the glob. */
  lemma {:induction false} CoverageIsSound(t: PathTemplate, pattern: Bytes, values: map<Bytes, Bytes>)
    requires TemplateOk(t) && Covered(t, pattern) && Expanded(t, values).Ok?
    ensures Canonical(Expanded(t, values).value)
    ensures |PathSegments(Expanded(t, values).value)| == |t.segments|
    ensures PathGlob(Canon(pattern).value, Expanded(t, values).value)
  {
    var g, p := Canon(pattern).value, Expanded(t, values).value;
    CanonIdempotent(pattern);
    ExpandedIs(t, values);
    SegmentsOfCanonical(p);
    SegmentsOfCanonical(g);
    if t.segments == [] {
      EqualSegment([]);
    } else {
      forall i | 0 <= i < |t.segments| ensures SegmentGlob(Segments(g)[i], Segments(p)[i]) {
        assert SegCovered(t.segments[i], Segments(g)[i]);
        assert Filled(t.segments[i], values) == Ok(Segments(p)[i]);
        if t.segments[i].Placeholder? { StarsMatchAll(ONE_STAR, Segments(p)[i]); }
      }
    }
  }

  function NamesIn(t: PathTemplate): set<Bytes> {
    set i | 0 <= i < |t.segments| && t.segments[i].Placeholder? :: t.segments[i].name
  }

  /** Giving every placeholder the same one-letter value expands the template. */
  lemma {:induction false} UniformExpansion(t: PathTemplate, g: Bytes, a: Byte)
    requires TemplateOk(t) && EveryExpansionMatches(t, g) && IsAlpha(a)
    ensures t.segments != [] ==> |Segments(g)| == |t.segments|
    ensures t.segments != [] ==> forall i | 0 <= i < |t.segments| ::
              SegmentGlob(Segments(g)[i], if t.segments[i].Placeholder? then [a] else t.segments[i].text)
  {
    var values: map<Bytes, Bytes> := map n | n in NamesIn(t) :: [a];
    forall i | 0 <= i < |t.segments| ensures Filled(t.segments[i], values).Ok? {
      if t.segments[i].Placeholder? {
        assert t.segments[i].name in NamesIn(t);
        assert ValidValue([a]);
      }
    }
    ExpandedIs(t, values);
    var p := Expanded(t, values).value;
    SegmentsOfCanonical(p);
    assert PathGlob(g, p);
    if t.segments != [] {
      forall i | 0 <= i < |t.segments|
        ensures SegmentGlob(Segments(g)[i], if t.segments[i].Placeholder? then [a] else t.segments[i].text)
      {
        assert Filled(t.segments[i], values) == Ok(Segments(p)[i]);
        if t.segments[i].Placeholder? { assert t.segments[i].name in NamesIn(t); }
      }
    }
  }

  /**
    Coverage is exact up to runs of stars: CoveredBy holds just when every expansion matches and no
    placeholder meets "**" (and the root template meets only the root glob).
   */
  lemma {:induction false} CoverageIsExact(t: PathTemplate, pattern: Bytes)
    requires TemplateOk(t) && Canon(pattern).Ok?
    ensures var g := Canon(pattern).value;
            Covered(t, pattern) <==> EveryExpansionMatches(t, g) && NoWideStars(t, g)
  {
    var g := Canon(pattern).value;
    if Covered(t, pattern) {
      forall values | Expanded(t, values).Ok? ensures PathGlob(g, Expanded(t, values).value) {
        CoverageIsSound(t, pattern, values);
      }
    }
    if EveryExpansionMatches(t, g) && NoWideStars(t, g) && t.segments != [] {
      UniformExpansion(t, g, 0x61);
      UniformExpansion(t, g, 0x62);
      CanonIdempotent(pattern);
      SegmentsOfCanonical(g);
      forall i | 0 <= i < |t.segments| ensures SegCovered(t.segments[i], Segments(g)[i]) {
        if t.segments[i].Placeholder? {
          MatchesBothIsStars(Segments(g)[i], 0x61, 0x62);
          assert Segments(g)[i] == ONE_STAR;
        }
      }
      if g == [SLASH] {
        RootGlobMatchesNothingElse(t);
        assert false;
      }
    }
  }

  lemma LongStarsRun(p: Bytes)
    requires AllStars(p) && |p| > 1
    ensures !NoStarRuns(p)
  {
    assert p[1 - 1] == STAR && p[1] == STAR;
  }

  /** On the globs the schemas let through, which have no run of stars, only the root template is an exception. */
  lemma {:induction false} CoverageIsExactWithoutRuns(t: PathTemplate, pattern: Bytes)
    requires TemplateOk(t) && Canon(pattern).Ok? && NoStarRuns(Canon(pattern).value)
    ensures var g := Canon(pattern).value;
            Covered(t, pattern) <==> EveryExpansionMatches(t, g) && (t.segments == [] ==> g == [SLASH])
  {
    hide Canon, Covered, EveryExpansionMatches, Split;
    var g := Canon(pattern).value;
    CoverageIsExact(t, pattern);
    forall i | 0 <= i < |Segments(g)| && AllStars(Segments(g)[i]) ensures |Segments(g)[i]| <= 1 {
      assert NoStarRuns(TrimPrefix(g, SLASH));
      PartsHaveNoRuns(TrimPrefix(g, SLASH), SLASH, i);
      if |Segments(g)[i]| > 1 { LongStarsRun(Segments(g)[i]); }
    }
  }

  lemma {:induction false} RootGlobMatchesNothingElse(t: PathTemplate)
    requires TemplateOk(t) && |t.segments| == 1
    ensures !SegCovered(t.segments[0], [])
  {
    if t.segments[0].LiteralText? {
      NoGap([], t.segments[0].text);
      assert Split([], STAR) == [[]];
      assert CanonicalSegment(t.segments[0].text);
    }
  }

  /** A run of stars is a canonical path of one segment. */
  lemma {:induction false} StarsAreCanonical(seg: Bytes)
    requires AllStars(seg) && seg != []
    ensures Canonical([SLASH] + seg) && Segments([SLASH] + seg) == [seg]
  {
    PlainTokens(seg);
    assert Octets(Tokens(seg)) == seg && seg[0] == STAR;
    assert CanonicalSegment(seg);
    JoinedIsCanonical([seg]);
    assert Join([seg], SLASH) == seg;
    hide Canonical, Canon, Tokens, Normal;
    SegmentsOfCanonical([SLASH] + seg);
  }

  /** The documented "exactly" fails at "**": every expansion of {id} matches, yet CoveredBy says no. */
  lemma WideStarCounterexample()
    ensures var t := PathTemplate([Placeholder([0x69, 0x64])]);
            var g: Bytes := [SLASH, STAR, STAR];
            TemplateOk(t) && Canonical(g) && EveryExpansionMatches(t, g) && !Covered(t, g)
  {
    var t := PathTemplate([Placeholder([0x69, 0x64])]);
    var g: Bytes := [SLASH, STAR, STAR];
    var seg: Bytes := [STAR, STAR];
    StarsAreCanonical(seg);
    assert [SLASH] + seg == g;
    forall values | Expanded(t, values).Ok? ensures PathGlob(g, Expanded(t, values).value) {
      hide Canon, SegmentGlob;
      ExpandedIs(t, values);
      SegmentsOfCanonical(Expanded(t, values).value);
      StarsMatchAll(seg, Segments(Expanded(t, values).value)[0]);
    }
  }

  /** It also fails at the root: Match lets a lone star segment match the bare root, CoveredBy does not. */
  lemma RootCounterexample()
    ensures var t := PathTemplate([]);
            var g: Bytes := [SLASH, STAR];
            TemplateOk(t) && Canonical(g) && EveryExpansionMatches(t, g) && !Covered(t, g)
  {
    var t := PathTemplate([]);
    var g: Bytes := [SLASH, STAR];
    StarsAreCanonical(ONE_STAR);
    assert [SLASH] + ONE_STAR == g;
    RootIsCanonical();
    SegmentsOfCanonical([SLASH]);
    StarsMatchAll(ONE_STAR, []);
    assert PathGlob(g, [SLASH]);
  }
}
