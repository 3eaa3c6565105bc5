/**
  The text of the canonical manifest form (internal/canonical): RFC 8785 escaping (section 3.2.2.2)
  and key order (section 3.2.3), serialisation, and why the text can be read in one way only.
  Strings are sequences of Unicode scalar values.
 */
module CanonicalJson {
  import opened Decimals
  import opened Order

  /** A decoded document. JsonNumber, Float and GoInt are the three ways a number may arrive. */
  datatype Doc =
    | Null | Bool(b: bool) | JsonNumber(text: string) | Float(r: real) | GoInt(n: int) | Int64(i: int)
    | Str(s: string) | Arr(items: seq<Doc>) | Obj(fields: map<string, Doc>) | Other(tag: int)

  const MAX_SAFE_INT := 0x1F_FFFF_FFFF_FFFF

  predicate Safe(i: int) { -MAX_SAFE_INT <= i <= MAX_SAFE_INT }

  // ---------------------------------------------------------------- strings

  function HexChar(v: int): char
    requires 0 <= v < 16
  {
    if v < 10 then ('0' as int + v) as char else ('a' as int + v - 10) as char
  }

  function EscapeChar(c: char): (s: string)
    ensures s != [] && s[0] != '"' && (|s| == 1 ==> s == [c] && c != '\\')
  {
    if c == '"' then "\\\""
    else if c == '\\' then "\\\\"
    else if c as int == 8 then "\\b"
    else if c as int == 12 then "\\f"
    else if c == '\n' then "\\n"
    else if c == '\r' then "\\r"
    else if c == '\t' then "\\t"
    else if c as int < 0x20 then ['\\', 'u', '0', '0', HexChar(c as int / 16), HexChar(c as int % 16)]
    else [c]
  }

  function EscapeBody(s: string): string {
    if s == [] then [] else EscapeChar(s[0]) + EscapeBody(s[1..])
  }

  function Escape(s: string): string { ['"'] + EscapeBody(s) + ['"'] }

  method EscapeString(s: string) returns (text: string)
    ensures text == Escape(s)
  {
    text := ['"'];
    for i := 0 to |s|
      invariant Escape(s) == text + EscapeBody(s[i..]) + ['"']
    {
      assert s[i..][1..] == s[i + 1..];
      assert text + (EscapeChar(s[i]) + EscapeBody(s[i + 1..])) == text + EscapeChar(s[i]) + EscapeBody(s[i + 1..]);
      text := text + EscapeChar(s[i]);
    }
    assert s[|s|..] == [];
    text := text + ['"'];
  }

  /** The escapes form a prefix code. */
  lemma {:induction false} EscapeCharReadable(c: char, x: string, d: char, y: string)
    requires EscapeChar(c) + x == EscapeChar(d) + y
    ensures c == d
  {
    var a, b := EscapeChar(c), EscapeChar(d);
    var t := a + x;
    assert t[0] == a[0] && t[0] == b[0];
    if |a| > 1 && |b| > 1 {
      assert t[1] == a[1] && t[1] == b[1];
      if |a| == 6 && |b| == 6 {
        assert t[4] == a[4] && t[4] == b[4];
        assert t[5] == a[5] && t[5] == b[5];
      }
    }
  }

  lemma {:induction false} EscapeBodyReadable(s: string, x: string, t: string, y: string)
    requires EscapeBody(s) + (['"'] + x) == EscapeBody(t) + (['"'] + y)
    ensures s == t && x == y
  {
    var l, r := EscapeBody(s) + (['"'] + x), EscapeBody(t) + (['"'] + y);
    assert l[0] == if s == [] then '"' else EscapeChar(s[0])[0];
    assert r[0] == if t == [] then '"' else EscapeChar(t[0])[0];
    if s == [] && t == [] {
      assert l == ['"'] + x && r == ['"'] + y;
      Cancel(['"'], x, y);
    } else if s != [] && t != [] {
      var x', y' := EscapeBody(s[1..]) + (['"'] + x), EscapeBody(t[1..]) + (['"'] + y);
      assert l == EscapeChar(s[0]) + x';
      assert r == EscapeChar(t[0]) + y';
      EscapeCharReadable(s[0], x', t[0], y');
      Cancel(EscapeChar(s[0]), x', y');
      EscapeBodyReadable(s[1..], x, t[1..], y);
      assert s == [s[0]] + s[1..] && t == [t[0]] + t[1..];
    }
  }

  lemma EscapeReadable(s: string, x: string, t: string, y: string)
    requires Escape(s) + x == Escape(t) + y
    ensures s == t && x == y
  {
    assert Escape(s) + x == ['"'] + (EscapeBody(s) + (['"'] + x));
    assert Escape(t) + y == ['"'] + (EscapeBody(t) + (['"'] + y));
    Cancel(['"'], EscapeBody(s) + (['"'] + x), EscapeBody(t) + (['"'] + y));
    EscapeBodyReadable(s, x, t, y);
  }

  // ---------------------------------------------------------------- key order

  function Units(c: char): (u: seq<int>)
    ensures u != [] && (|u| == 1 || |u| == 2)
  {
    var v := c as int;
    if v < 0x10000 then [v] else [0xD800 + (v - 0x10000) / 0x400, 0xDC00 + (v - 0x10000) % 0x400]
  }

  /** utf16.Encode. */
  function Utf16(s: string): seq<int> {
    if s == [] then [] else Units(s[0]) + Utf16(s[1..])
  }

  lemma {:induction false} UnitsReadable(c: char, x: seq<int>, d: char, y: seq<int>)
    requires Units(c) + x == Units(d) + y
    ensures c == d
  {
    var t := Units(c) + x;
    assert t[0] == Units(c)[0] && t[0] == Units(d)[0];
    if |Units(c)| == 2 && |Units(d)| == 2 {
      assert t[1] == Units(c)[1] && t[1] == Units(d)[1];
    }
  }

  lemma {:induction false} Utf16Injective(s: string, t: string)
    requires Utf16(s) == Utf16(t)
    ensures s == t
  {
    if s != [] && t != [] {
      UnitsReadable(s[0], Utf16(s[1..]), t[0], Utf16(t[1..]));
      Cancel(Units(s[0]), Utf16(s[1..]), Utf16(t[1..]));
      Utf16Injective(s[1..], t[1..]);
      assert s == [s[0]] + s[1..] && t == [t[0]] + t[1..];
    }
  }

  const BY_UTF16: string -> seq<int> := (s: string) => Utf16(s)

  /** sort.Strings compares UTF-8 bytes, which is the order of the scalar values. */
  const BY_SCALARS: string -> seq<int> := (s: string) => Scalars(s)

  function Scalars(s: string): (r: seq<int>)
    ensures |r| == |s| && forall i | 0 <= i < |s| :: r[i] == s[i] as int
  {
    seq(|s|, i requires 0 <= i < |s| => s[i] as int)
  }

  lemma KeysAreInjective()
    ensures Injective(BY_UTF16) && Injective(BY_SCALARS)
  {
    forall s, t | BY_UTF16(s) == BY_UTF16(t) ensures s == t { Utf16Injective(s, t); }
    forall s, t | BY_SCALARS(s) == BY_SCALARS(t) ensures s == t {
      forall i | 0 <= i < |s| && i < |t| ensures s[i] == t[i] { assert Scalars(s)[i] == Scalars(t)[i]; }
      assert |Scalars(s)| == |Scalars(t)|;
    }
  }

  /** Both comparisons the code sorts strings by are strict total orders. */
  lemma OrdersAreTotal()
    ensures StrictTotal(BY_UTF16) && StrictTotal(BY_SCALARS)
  {
    hide StrictTotal, Injective;
    KeysAreInjective();
    InjectiveIsTotal(BY_UTF16);
    InjectiveIsTotal(BY_SCALARS);
  }

  /** The comparison passed to sort.Slice in sortKeys. */
  method KeyLess(s: string, t: string) returns (less: bool)
    ensures less <==> Lex(Utf16(s), Utf16(t))
  {
    var a, b := Utf16(s), Utf16(t);
    var k := 0;
    while k < |a| && k < |b|
      invariant 0 <= k <= |a| && k <= |b|
      invariant Lex(a, b) <==> Lex(a[k..], b[k..])
    {
      if a[k] != b[k] { return a[k] < b[k]; }
      assert a[k..][1..] == a[k + 1..] && b[k..][1..] == b[k + 1..];
      k := k + 1;
    }
    return |a| < |b|;
  }

  /** Some listing of a finite set, as a Go map iteration gives one. */
  ghost function Listing<T(!new)>(s: set<T>): (xs: seq<T>)
    ensures forall x :: x in xs <==> x in s
    ensures multiset(xs) == multiset(s)
  {
    if s == {} then []
    else
      var x :| x in s;
      assert multiset(s) == multiset{x} + multiset(s - {x});
      [x] + Listing(s - {x})
  }

  ghost function SortedKeys(s: set<string>): (ks: seq<string>)
    ensures forall k :: k in ks <==> k in s
  {
    var ks := SortBy(BY_UTF16, Listing(s));
    assert forall k :: k in multiset(ks) <==> k in ks;
    assert forall k :: k in ks <==> k in Listing(s);
    ks
  }

  /** Whatever order the keys are met in, sorting gives the same list. */
  lemma {:induction false} SortedKeysUnique(s: set<string>, met: seq<string>)
    requires multiset(met) == multiset(s)
    ensures SortBy(BY_UTF16, met) == SortedKeys(s) && Strict(BY_UTF16, SortedKeys(s))
  {
    KeysAreInjective();
    DistinctListing(s, met);
    DistinctListing(s, Listing(s));
    SortDistinct(BY_UTF16, met);
    SortDistinct(BY_UTF16, Listing(s));
    SortKeepsElements(BY_UTF16, met);
    StrictUnique(BY_UTF16, SortBy(BY_UTF16, met), SortedKeys(s));
  }

  lemma DistinctListing(s: set<string>, met: seq<string>)
    requires multiset(met) == multiset(s)
    ensures forall k :: k in met <==> k in s
    ensures forall k | k in met :: multiset(met)[k] == 1
  {
    forall k ensures k in met <==> k in s { assert k in multiset(met) <==> k in multiset(s); }
  }

  // ---------------------------------------------------------------- serialisation

  /** The kinds of value normalisation leaves; any other makes the serialiser panic. */
  predicate Serialisable(v: Doc) {
    match v
    case Null => true
    case Bool(_) => true
    case Int64(_) => true
    case Str(_) => true
    case Arr(items) => forall i | 0 <= i < |items| :: Serialisable(items[i])
    case Obj(fields) => forall k | k in fields :: Serialisable(fields[k])
    case _ => false
  }

  ghost function Serialise(v: Doc): string
    requires Serialisable(v)
    decreases v, 1, 0
  {
    match v
    case Null => "null"
    case Bool(b) => if b then "true" else "false"
    case Int64(i) => Decimal(i)
    case Str(s) => Escape(s)
    case Arr(items) => ['['] + Elements(v, 0)
    case Obj(fields) => ['{'] + Members(v, SortedKeys(fields.Keys), 0)
  }

  function Comma(i: nat): string { if i > 0 then [','] else [] }

  /** The elements from index i on, and the closing bracket. */
  ghost function Elements(v: Doc, i: nat): string
    requires v.Arr? && Serialisable(v) && i <= |v.items|
    decreases v, 0, |v.items| - i + 1
  {
    if i == |v.items| then [']'] else Comma(i) + Serialise(v.items[i]) + Elements(v, i + 1)
  }

  /** The members from the i-th key on, and the closing brace. */
  ghost function Members(v: Doc, keys: seq<string>, i: nat): string
    requires v.Obj? && Serialisable(v) && i <= |keys| && forall k | k in keys :: k in v.fields
    decreases v, 0, |keys| - i + 1
  {
    if i == |keys| then ['}']
    else Comma(i) + Escape(keys[i]) + [':'] + Serialise(v.fields[keys[i]]) + Members(v, keys, i + 1)
  }

  /** The first character of a serialised value tells its kind. */
  lemma FirstChar(v: Doc)
    requires Serialisable(v)
    ensures var s := Serialise(v);
            s != [] &&
            match v
            case Null => s[0] == 'n'
            case Bool(b) => s[0] == if b then 't' else 'f'
            case Int64(_) => s[0] == '-' || IsDigit(s[0])
            case Str(_) => s[0] == '"'
            case Arr(_) => s[0] == '['
            case Obj(_) => s[0] == '{'
  {
  }

  predicate Delimits(x: string) { x == [] || x[0] in {',', ']', '}'} }

  lemma ElementsStart(v: Doc, i: nat)
    requires v.Arr? && Serialisable(v) && i <= |v.items|
    ensures Elements(v, i) != []
    ensures i == |v.items| ==> Elements(v, i) == [']']
    ensures i < |v.items| ==> Elements(v, i)[0] == if i > 0 then ',' else Serialise(v.items[i])[0]
    ensures i > 0 ==> Delimits(Elements(v, i))
  {
    if i < |v.items| { FirstChar(v.items[i]); }
  }

  lemma MembersStart(v: Doc, keys: seq<string>, i: nat)
    requires v.Obj? && Serialisable(v) && i <= |keys| && forall k | k in keys :: k in v.fields
    ensures Members(v, keys, i) != []
    ensures i == |keys| ==> Members(v, keys, i) == ['}']
    ensures i < |keys| ==> Members(v, keys, i)[0] == if i > 0 then ',' else '"'
    ensures i > 0 ==> Delimits(Members(v, keys, i))
  {
  }

  lemma DelimitsConcat(s: string, x: string)
    requires s != [] && Delimits(s)
    ensures Delimits(s + x)
  {
  }

  lemma Regroup(a: string, b: string, c: string, x: string)
    ensures a + b + c + x == a + (b + (c + x))
  {
  }

  /**
    Unique readability: a serialised value, wherever it stands before a delimiter, can be read in
    one way only.
   */
  lemma {:induction false} ReadableBefore(a: Doc, x: string, b: Doc, y: string)
    requires Serialisable(a) && Serialisable(b) && Delimits(x) && Delimits(y)
    requires Serialise(a) + x == Serialise(b) + y
    ensures a == b && x == y
    decreases a, 1, 0
  {
    FirstChar(a);
    FirstChar(b);
    assert (Serialise(a) + x)[0] == Serialise(a)[0] && (Serialise(b) + y)[0] == Serialise(b)[0];
    match a
    case Null => Cancel("null", x, y);
    case Bool(t) => Cancel(Serialise(a), x, y);
    case Int64(i) => DecimalReadable(i, x, b.i, y);
    case Str(s) => EscapeReadable(s, x, b.s, y);
    case Arr(items) =>
      BracketedReadable(a, x, b, y);
    case Obj(fields) =>
      BracedReadable(a, x, b, y);
    case _ =>
  }

  lemma {:induction false} BracketedReadable(a: Doc, x: string, b: Doc, y: string)
    requires Serialisable(a) && Serialisable(b) && a.Arr? && b.Arr?
    requires Serialise(a) + x == Serialise(b) + y
    ensures a == b && x == y
    decreases a, 0, |a.items| + 2
  {
    assert Serialise(a) + x == ['['] + (Elements(a, 0) + x);
    assert Serialise(b) + y == ['['] + (Elements(b, 0) + y);
    Cancel(['['], Elements(a, 0) + x, Elements(b, 0) + y);
    ElementsReadable(a, x, b, y, 0);
  }

  lemma {:induction false} ElementsReadable(a: Doc, x: string, b: Doc, y: string, i: nat)
    requires a.Arr? && b.Arr? && Serialisable(a) && Serialisable(b) && i <= |a.items| && i <= |b.items|
    requires a.items[..i] == b.items[..i]
    requires Elements(a, i) + x == Elements(b, i) + y
    ensures a == b && x == y
    decreases a, 0, |a.items| - i + 1
  {
    ElementsStart(a, i);
    ElementsStart(b, i);
    assert (Elements(a, i) + x)[0] == Elements(a, i)[0] && (Elements(b, i) + y)[0] == Elements(b, i)[0];
    if i < |a.items| { FirstChar(a.items[i]); }
    if i < |b.items| { FirstChar(b.items[i]); }
    if i == |a.items| {
      assert a.items == a.items[..i] && b.items == b.items[..i];
      Cancel([']'], x, y);
    } else {
      assert i < |b.items|;
      var sa, sb := Serialise(a.items[i]), Serialise(b.items[i]);
      var ra, rb := Elements(a, i + 1), Elements(b, i + 1);
      Regroup(Comma(i), sa, ra, x);
      Regroup(Comma(i), sb, rb, y);
      Cancel(Comma(i), sa + (ra + x), sb + (rb + y));
      ElementsStart(a, i + 1);
      ElementsStart(b, i + 1);
      DelimitsConcat(ra, x);
      DelimitsConcat(rb, y);
      ReadableBefore(a.items[i], ra + x, b.items[i], rb + y);
      assert a.items[..i + 1] == a.items[..i] + [a.items[i]] && b.items[..i + 1] == b.items[..i] + [b.items[i]];
      ElementsReadable(a, x, b, y, i + 1);
    }
  }

  lemma {:induction false} BracedReadable(a: Doc, x: string, b: Doc, y: string)
    requires Serialisable(a) && Serialisable(b) && a.Obj? && b.Obj?
    requires Serialise(a) + x == Serialise(b) + y
    ensures a == b && x == y
    decreases a, 0, |SortedKeys(a.fields.Keys)| + 2
  {
    hide SortedKeys, Members, Serialisable;
    var ka, kb := SortedKeys(a.fields.Keys), SortedKeys(b.fields.Keys);
    assert Serialise(a) + x == ['{'] + (Members(a, ka, 0) + x);
    assert Serialise(b) + y == ['{'] + (Members(b, kb, 0) + y);
    Cancel(['{'], Members(a, ka, 0) + x, Members(b, kb, 0) + y);
    MembersReadable(a, ka, x, b, kb, y, 0);
    AgreeingObjects(a, ka, b);
  }

  lemma AgreeingObjects(a: Doc, ka: seq<string>, b: Doc)
    requires a.Obj? && b.Obj? && AgreeOn(a, ka, b, ka, |ka|)
    requires forall k :: k in ka <==> k in a.fields
    requires forall k :: k in ka <==> k in b.fields
    ensures a == b
  {
    assert a.fields.Keys == b.fields.Keys;
    forall k | k in a.fields ensures a.fields[k] == b.fields[k] {
      assert k in ka;
      var j :| 0 <= j < |ka| && ka[j] == k;
    }
    assert a.fields == b.fields;
  }

  /** The first i keys and their values are the same. */
  ghost predicate AgreeOn(a: Doc, ka: seq<string>, b: Doc, kb: seq<string>, i: nat) {
    a.Obj? && b.Obj? && i <= |ka| && i <= |kb| && ka[..i] == kb[..i] &&
    forall j | 0 <= j < i :: ka[j] in a.fields && ka[j] in b.fields && a.fields[ka[j]] == b.fields[ka[j]]
  }

  lemma AgreeStep(a: Doc, ka: seq<string>, b: Doc, kb: seq<string>, i: nat)
    requires AgreeOn(a, ka, b, kb, i) && i < |ka| && i < |kb| && ka[i] == kb[i]
    requires ka[i] in a.fields && ka[i] in b.fields && a.fields[ka[i]] == b.fields[ka[i]]
    ensures AgreeOn(a, ka, b, kb, i + 1)
  {
    assert ka[..i + 1] == ka[..i] + [ka[i]] && kb[..i + 1] == kb[..i] + [kb[i]];
  }

  lemma {:induction false} MembersReadable(
      a: Doc, ka: seq<string>, x: string, b: Doc, kb: seq<string>, y: string, i: nat)
    requires a.Obj? && b.Obj? && Serialisable(a) && Serialisable(b) && i <= |ka| && i <= |kb|
    requires (forall k | k in ka :: k in a.fields) && (forall k | k in kb :: k in b.fields)
    requires AgreeOn(a, ka, b, kb, i)
    requires Members(a, ka, i) + x == Members(b, kb, i) + y
    ensures ka == kb && x == y && AgreeOn(a, ka, b, kb, |ka|)
    decreases a, 0, |ka| - i + 1
  {
    MembersStart(a, ka, i);
    MembersStart(b, kb, i);
    hide Members, Serialisable, Delimits;
    assert (Members(a, ka, i) + x)[0] == Members(a, ka, i)[0] && (Members(b, kb, i) + y)[0] == Members(b, kb, i)[0];
    if i == |ka| {
      assert ka == ka[..i] && kb == kb[..i];
      Cancel(['}'], x, y);
    } else {
      assert i < |kb|;
      MemberReadable(a, ka, x, b, kb, y, i);
      AgreeStep(a, ka, b, kb, i);
      MembersReadable(a, ka, x, b, kb, y, i + 1);
    }
  }

  lemma {:induction false} MemberReadable(
      a: Doc, ka: seq<string>, x: string, b: Doc, kb: seq<string>, y: string, i: nat)
    requires a.Obj? && b.Obj? && Serialisable(a) && Serialisable(b) && i < |ka| && i < |kb|
    requires (forall k | k in ka :: k in a.fields) && (forall k | k in kb :: k in b.fields)
    requires Members(a, ka, i) + x == Members(b, kb, i) + y
    ensures ka[i] == kb[i] && a.fields[ka[i]] == b.fields[kb[i]]
    ensures Members(a, ka, i + 1) + x == Members(b, kb, i + 1) + y
    decreases a, 0, 0
  {
    var sa, sb := Serialise(a.fields[ka[i]]), Serialise(b.fields[kb[i]]);
    var ra, rb := Members(a, ka, i + 1) + x, Members(b, kb, i + 1) + y;
    RegroupMember(Comma(i), Escape(ka[i]), sa, Members(a, ka, i + 1), x);
    RegroupMember(Comma(i), Escape(kb[i]), sb, Members(b, kb, i + 1), y);
    Cancel(Comma(i), Escape(ka[i]) + ([':'] + (sa + ra)), Escape(kb[i]) + ([':'] + (sb + rb)));
    EscapeReadable(ka[i], [':'] + (sa + ra), kb[i], [':'] + (sb + rb));
    Cancel([':'], sa + ra, sb + rb);
    MembersStart(a, ka, i + 1);
    MembersStart(b, kb, i + 1);
    DelimitsConcat(Members(a, ka, i + 1), x);
    DelimitsConcat(Members(b, kb, i + 1), y);
    ReadableBefore(a.fields[ka[i]], ra, b.fields[kb[i]], rb);
  }

  lemma RegroupMember(c: string, k: string, v: string, m: string, x: string)
    ensures c + k + [':'] + v + m + x == c + (k + ([':'] + (v + (m + x))))
  {
  }

  /** Two values have one text exactly when they are equal. */
  lemma SerialiseInjective(a: Doc, b: Doc)
    requires Serialisable(a) && Serialisable(b)
    ensures Serialise(a) == Serialise(b) <==> a == b
  {
    if Serialise(a) == Serialise(b) {
      assert Serialise(a) + [] == Serialise(b) + [];
      ReadableBefore(a, [], b, []);
    }
  }
}
