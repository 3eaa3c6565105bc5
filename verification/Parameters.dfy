/**
  From card parameters to the request path (declarative.requestPath, segmentValue), and from there to
  a permitted request: the run-time end of what the loader checks.
 */
module Parameters {
  import opened Text
  import opened Decimals
  import opened RoutePath
  import opened Template
  import opened Authority
  import opened LoadCheck
  import opened Options

  const MAX_FLOAT_INT := 0x20_0000_0000_0000
  /** A decoded parameter; a float that is not finite has no value, the last case is any other type. */
  datatype ParamValue =
    | TextValue(text: Bytes) | FloatValue(r: Option<real>) | IntValue(n: Signed64) | NumberValue(text: Bytes)
    | OtherValue

  // ---------------------------------------------------------------- bytes and characters

  const PLUS: Byte := 0x2B

  /** Each byte as the character of its number. */
  function Chars(s: Bytes): (t: string)
    ensures |t| == |s| && forall i | 0 <= i < |s| :: t[i] as int == s[i]
  {
    seq(|s|, i requires 0 <= i < |s| => s[i] as char)
  }

  predicate Ascii(s: string) { forall i | 0 <= i < |s| :: s[i] < 128 as char }

  function AsBytes(s: string): (t: Bytes)
    requires Ascii(s)
    ensures Chars(t) == s
  {
    seq(|s|, i requires 0 <= i < |s| => s[i] as int)
  }

  function FormatInt(i: int): Bytes { AsBytes(Decimal(i)) }

  // ---------------------------------------------------------------- segmentValue

  /** declarative.segmentValue. */
  function SegmentValue(v: ParamValue): Option<Bytes> {
    match v
    case TextValue(s) => Some(s)
    case FloatValue(r) =>
      if r.None? || r.value != r.value.Floor as real || !(-MAX_FLOAT_INT as real <= r.value <= MAX_FLOAT_INT as real)
      then None else Some(FormatInt(r.value.Floor))
    case IntValue(n) => Some(FormatInt(n))
    case NumberValue(s) => if ParseInt(Chars(s)).None? then None else Some(s)
    case OtherValue => None
  }

  /** The parameters that make one path segment. */
  predicate Fits(v: ParamValue) {
    match v
    case TextValue(s) => ValidValue(s)
    case FloatValue(r) =>
      r.Some? && r.value == r.value.Floor as real && -MAX_FLOAT_INT as real <= r.value <= MAX_FLOAT_INT as real
    case IntValue(_) => true
    case NumberValue(s) => ParseInt(Chars(s)).Some? && s[0] != PLUS && |s| <= 128
    case OtherValue => false
  }

  lemma {:induction false} IntTextValid(s: Bytes)
    requires ParseInt(Chars(s)).Some?
    ensures ValidValue(s) <==> s[0] != PLUS && |s| <= 128
  {
    hide Value;
    var text, digits := Chars(s), Unsigned(Chars(s));
    assert IsDigit(digits[0]) && digits[0] == text[|s| - |digits|];
    if s[0] != PLUS {
      forall i | 0 <= i < |s| ensures ValueByte(s[i]) {
        if text[i] != '-' { assert text[i] == digits[i - (|s| - |digits|)]; }
      }
    } else {
      assert !ValueByte(s[0]);
    }
  }

  /** Every integer gives a valid placeholder value, which reads back as that integer. */
  lemma {:induction false} IntegersAreValid(i: Signed64)
    ensures ValidValue(FormatInt(i)) && ParseInt(Chars(FormatInt(i))) == Some(i)
  {
    DecimalReadsBack(i);
    DecimalShort(i);
    var text := Decimal(i);
    assert text[0] != '+';
    hide Decimal, ParseInt;
    IntTextValid(FormatInt(i));
  }

  /** The number grammar of RFC 8259: an optional minus and no leading zero. */
  predicate JsonInteger(s: string) {
    var digits := if s != [] && s[0] == '-' then s[1..] else s;
    digits != [] && AllDigits(digits) && (digits[0] != '0' || |digits| == 1)
  }

  /** A number the JSON decoder can deliver is short enough, so it fits exactly when it is a 64-bit integer. */
  lemma {:induction false} JsonIntegersFit(s: Bytes)
    requires JsonInteger(Chars(s))
    ensures Fits(NumberValue(s)) <==> ParseInt(Chars(s)).Some?
  {
    hide Value;
    var text := Chars(s);
    assert IsDigit(text[0]) || text[0] == '-';
    if ParseInt(text).Some? { DigitsShort(Unsigned(text)); }
  }

  /** segmentValue writes a value that Expand accepts exactly for the parameters that fit. */
  lemma {:induction false} SegmentValueIs(v: ParamValue)
    ensures SegmentValue(v).Some? && ValidValue(SegmentValue(v).value) <==> Fits(v)
  {
    hide ValidValue, FormatInt, ParseInt;
    match v
    case TextValue(s) =>
    case FloatValue(r) => if Fits(v) { IntegersAreValid(r.value.Floor); }
    case IntValue(n) => IntegersAreValid(n);
    case NumberValue(s) => if ParseInt(Chars(s)).Some? { IntTextValid(s); }
    case OtherValue =>
  }

  // ---------------------------------------------------------------- requestPath

  datatype ParamError = Unwritable(name: Bytes) | Unexpanded(error: TemplateError)

  predicate UnwritableParam(params: map<Bytes, ParamValue>, name: Bytes) {
    name in params && SegmentValue(params[name]).None?
  }

  function FirstUnwritable(names: seq<Bytes>, params: map<Bytes, ParamValue>): (r: Option<Bytes>)
    ensures r.None? <==> forall i | 0 <= i < |names| :: !UnwritableParam(params, names[i])
  {
    if names == [] then None
    else if UnwritableParam(params, names[0]) then Some(names[0])
    else FirstUnwritable(names[1..], params)
  }

  function ValuesFor(names: seq<Bytes>, params: map<Bytes, ParamValue>): map<Bytes, Bytes> {
    map name | name in names && name in params && SegmentValue(params[name]).Some? :: SegmentValue(params[name]).value
  }

  function PathFor(t: PathTemplate, params: map<Bytes, ParamValue>): Result<Bytes, ParamError> {
    var names := Names(t.segments);
    var bad := FirstUnwritable(names, params);
    if bad.Some? then Err(Unwritable(bad.value))
    else
      var path := Expanded(t, ValuesFor(names, params));
      if path.Err? then Err(Unexpanded(path.error)) else Ok(path.value)
  }

  /** declarative.requestPath: the first parameter that cannot be written is reported before anything is expanded. */
  method RequestPath(t: PathTemplate, params: map<Bytes, ParamValue>) returns (r: Result<Bytes, ParamError>)
    ensures r == PathFor(t, params)
  {
    hide Expanded, SegmentValue;
    var names := Names(t.segments);
    var values: map<Bytes, Bytes> := map[];
    for i := 0 to |names|
      invariant values == ValuesFor(names[..i], params)
      invariant FirstUnwritable(names, params) == FirstUnwritable(names[i..], params)
    {
      assert names[i..][1..] == names[i + 1..];
      assert names[..i + 1] == names[..i] + [names[i]];
      var name := names[i];
      if name in params {
        var s := SegmentValue(params[name]);
        if s.None? { return Err(Unwritable(name)); }
        values := values[name := s.value];
      }
    }
    assert names[..|names|] == names;
    var path := Expand(t, values);
    if path.Err? { return Err(Unexpanded(path.error)); }
    return Ok(path.value);
  }

  lemma {:induction false} NamesAre(segs: seq<Seg>, name: Bytes)
    ensures name in Names(segs) <==> Placeholder(name) in segs
  {
    if segs != [] {
      NamesAre(segs[1..], name);
      assert segs == [segs[0]] + segs[1..];
    }
  }

  /** A path comes out exactly when every placeholder has a parameter that fits. */
  lemma {:induction false} PathForIff(t: PathTemplate, params: map<Bytes, ParamValue>)
    requires TemplateOk(t)
    ensures PathFor(t, params).Ok? <==> forall name | name in Names(t.segments) :: name in params && Fits(params[name])
  {
    var names := Names(t.segments);
    var values := ValuesFor(names, params);
    ExpandedIs(t, values);
    hide Expanded, SegmentValue, Fits, ValidValue, TemplateOk;
    forall name | name in params
      ensures SegmentValue(params[name]).Some? && ValidValue(SegmentValue(params[name]).value) <==> Fits(params[name])
    {
      SegmentValueIs(params[name]);
    }
    if PathFor(t, params).Ok? {
      forall name | name in names ensures name in params && Fits(params[name]) {
        NamesAre(t.segments, name);
        var i :| 0 <= i < |t.segments| && t.segments[i] == Placeholder(name);
        assert Filler(values)(t.segments[i]).Ok?;
      }
    }
    if forall name | name in names :: name in params && Fits(params[name]) {
      forall i | 0 <= i < |names| ensures !UnwritableParam(params, names[i]) { assert names[i] in names; }
      forall i | 0 <= i < |t.segments| ensures Filler(values)(t.segments[i]).Ok? {
        if t.segments[i].Placeholder? { NamesAre(t.segments, t.segments[i].name); }
      }
    }
  }

  /**
    The whole chain: for a request the loader accepted through a route without content type, and
    parameters that fit, a path comes out, and the body-free request for it is permitted.
   */
  lemma {:induction false} FittingParametersArePermitted(
      mime: Mime, lower: string -> string, routes: seq<Route>, i: nat, r: RequestDef, t: PathTemplate,
      params: map<Bytes, ParamValue>, req: Request, kb: int, grant: seq<Route>)
    requires i < |routes| && TemplateOk(t) && RouteCovers(routes[i], r, t, lower) && routes[i].contentType == ""
    requires forall name | name in Names(t.segments) :: name in params && Fits(params[name])
    requires req.slot == r.slot && req.verb == r.verb && req.query.Keys == r.query && BodyLen(req) == 0
    requires PathFor(t, params).Ok? ==> req.path == PathFor(t, params).value
    requires Granted(routes[i]) in grant
    ensures PathFor(t, params) == Ok(req.path)
    ensures Canon(req.path) == Ok(req.path) && SomeRouteAllows(mime, grant, req, req.path, DATA, kb)
  {
    PathForIff(t, params);
    hide TemplateOk, RouteCovers, Fits, Expanded, Canon, SomeRouteAllows;
    var values := ValuesFor(Names(t.segments), params);
    LoadedRequestIsPermitted(mime, lower, routes, i, r, t, values, req, kb, grant);
    CoverLeavesTypeAndSize(mime, lower, routes[i], r, t, values, req, kb);
  }
}
