/**
  Normalisation of a manifest before hashing, the serialiser's code, and the theorem on the
  digested text: when two documents share it.
 */
module Normalise {
  import opened Decimals
  import opened Order
  import opened CanonicalJson
  import opened Options

  // ---------------------------------------------------------------- numbers

  predicate IsNumber(v: Doc) { v.JsonNumber? || v.Float? || v.GoInt? || v.Int64? }

  function SafeOnly(i: int): Option<int> { if Safe(i) then Some(i) else None }

  /** The integer a number denotes, if normalisation accepts it. An int64 is taken as it is. */
  function NumberOf(v: Doc): Option<int>
    requires IsNumber(v)
  {
    match v
    case JsonNumber(text) =>
      if '.' in text || 'e' in text || 'E' in text || ParseInt(text).None? then None
      else SafeOnly(ParseInt(text).value)
    case Float(r) => if r != r.Floor as real then None else SafeOnly(r.Floor)
    case GoInt(n) => SafeOnly(n)
    case Int64(i) => Some(i)
  }

  // ---------------------------------------------------------------- set-like paths

  const SET_LIKE_PATHS: seq<seq<string>> :=
    [["spec", "capabilities"], ["spec", "operations", "*", "routes", "*", "queryKeys"]]

  predicate PatternMatches(p: seq<string>, path: seq<string>) {
    |p| == |path| && forall i | 0 <= i < |p| :: p[i] == "*" || p[i] == path[i]
  }

  predicate SetLike(path: seq<string>) {
    exists n | 0 <= n < |SET_LIKE_PATHS| :: PatternMatches(SET_LIKE_PATHS[n], path)
  }

  method IsSetLike(path: seq<string>) returns (ok: bool)
    ensures ok <==> SetLike(path)
  {
    for n := 0 to |SET_LIKE_PATHS|
      invariant forall m | 0 <= m < n :: !PatternMatches(SET_LIKE_PATHS[m], path)
    {
      var p := SET_LIKE_PATHS[n];
      if |p| != |path| { continue; }
      var matched := true;
      for i := 0 to |p|
        invariant matched <==> forall j | 0 <= j < i :: p[j] == "*" || p[j] == path[j]
      {
        if p[i] != "*" && p[i] != path[i] { matched := false; break; }
      }
      if matched { return true; }
    }
    return false;
  }

  // ---------------------------------------------------------------- normalisation

  predicate AllStrings(items: seq<Doc>) { forall i | 0 <= i < |items| :: items[i].Str? }

  function StringsOf(items: seq<Doc>): (ss: seq<string>)
    requires AllStrings(items)
    ensures |ss| == |items| && forall i | 0 <= i < |items| :: items[i] == Str(ss[i])
  {
    seq(|items|, i requires 0 <= i < |items| => items[i].s)
  }

  function Strings(ss: seq<string>): (items: seq<Doc>)
    ensures |items| == |ss| && forall i | 0 <= i < |ss| :: items[i] == Str(ss[i])
  {
    seq(|ss|, i requires 0 <= i < |ss| => Str(ss[i]))
  }

  function SetForm(items: seq<Doc>): Option<Doc> {
    if AllStrings(items) then Some(Arr(Strings(SortedSet(BY_SCALARS, StringsOf(items))))) else None
  }

  /** normalise; None stands for any of its errors. */
  function Normal(v: Doc, path: seq<string>): Option<Doc> {
    match v
    case Obj(m) =>
      if forall k | k in m :: Normal(m[k], path + [k]).Some?
      then Some(Obj(map k | k in m :: Normal(m[k], path + [k]).value)) else None
    case Arr(items) =>
      if forall i | 0 <= i < |items| :: Normal(items[i], path + [Decimal(i)]).Some?
      then
        var out := seq(|items|, i requires 0 <= i < |items| => Normal(items[i], path + [Decimal(i)]).value);
        if SetLike(path) then SetForm(out) else Some(Arr(out))
      else None
    case Null => Some(v)
    case Bool(_) => Some(v)
    case Str(_) => Some(v)
    case Other(_) => Some(v)
    case _ => if NumberOf(v).Some? then Some(Int64(NumberOf(v).value)) else None
  }

  lemma ObjectNormalIs(m: map<string, Doc>, path: seq<string>, out: map<string, Doc>)
    requires out.Keys == m.Keys && forall k | k in m :: Normal(m[k], path + [k]) == Some(out[k])
    ensures Normal(Obj(m), path) == Some(Obj(out))
  {
    assert forall k | k in m :: Normal(m[k], path + [k]).Some?;
    var r := Normal(Obj(m), path);
    assert r.Some? && r.value.Obj? && r.value.fields.Keys == m.Keys;
    forall k | k in m ensures r.value.fields[k] == out[k] {}
    assert r.value.fields == out;
  }

  lemma ArrayNormalIs(items: seq<Doc>, path: seq<string>, out: seq<Doc>)
    requires |out| == |items| && forall i | 0 <= i < |items| :: Normal(items[i], path + [Decimal(i)]) == Some(out[i])
    ensures Normal(Arr(items), path) == if SetLike(path) then SetForm(out) else Some(Arr(out))
  {
    assert forall i | 0 <= i < |items| :: Normal(items[i], path + [Decimal(i)]).Some?;
    assert seq(|items|, i requires 0 <= i < |items| => Normal(items[i], path + [Decimal(i)]).value) == out;
  }

  method NormaliseDoc(v: Doc, path: seq<string>) returns (r: Option<Doc>)
    ensures r == Normal(v, path)
    decreases v
  {
    match v
    case Obj(m) =>
      var out: map<string, Doc> := map[];
      var left := m.Keys;
      while left != {}
        invariant left <= m.Keys && out.Keys == m.Keys - left
        invariant forall k | k in out :: Normal(m[k], path + [k]) == Some(out[k])
        decreases |left|
      {
        var k :| k in left;
        var n := NormaliseDoc(m[k], path + [k]);
        if n.None? { return None; }
        out := out[k := n.value];
        left := left - {k};
      }
      ObjectNormalIs(m, path, out);
      return Some(Obj(out));
    case Arr(items) =>
      var out: seq<Doc> := [];
      for i := 0 to |items|
        invariant |out| == i
        invariant forall j | 0 <= j < i :: Normal(items[j], path + [Decimal(j)]) == Some(out[j])
      {
        var n := NormaliseDoc(items[i], path + [Decimal(i)]);
        if n.None? { return None; }
        out := out + [n.value];
      }
      ArrayNormalIs(items, path, out);
      var setLike := IsSetLike(path);
      if setLike { r := SortAndDedup(out); } else { return Some(Arr(out)); }
    case Null => return Some(v);
    case Bool(_) => return Some(v);
    case Str(_) => return Some(v);
    case Other(_) => return Some(v);
    case _ => return if NumberOf(v).Some? then Some(Int64(NumberOf(v).value)) else None;
  }

  method SortAndDedup(out: seq<Doc>) returns (r: Option<Doc>)
    ensures r == SetForm(out)
  {
    var strs: seq<string> := [];
    for i := 0 to |out|
      invariant |strs| == i && forall j | 0 <= j < i :: out[j] == Str(strs[j])
    {
      if !out[i].Str? { return None; }
      strs := strs + [out[i].s];
    }
    assert strs == StringsOf(out);
    var sorted := SortBy(BY_SCALARS, strs);
    var a := new string[|sorted|](i requires 0 <= i < |sorted| => sorted[i]);
    assert a[..] == sorted;
    var n := DedupInPlace(a);
    return Some(Arr(Strings(a[..n])));
  }

  // ---------------------------------------------------------------- what normalisation forgets

  /** Equal as JSON values, but for order and repetition of strings at the set-like paths. */
  ghost predicate Same(a: Doc, b: Doc, path: seq<string>) {
    if a.Obj? && b.Obj? then
      a.fields.Keys == b.fields.Keys && forall k | k in a.fields :: Same(a.fields[k], b.fields[k], path + [k])
    else if a.Arr? && b.Arr? then
      if SetLike(path) then forall s :: Str(s) in a.items <==> Str(s) in b.items
      else
        |a.items| == |b.items| &&
        forall i | 0 <= i < |a.items| :: Same(a.items[i], b.items[i], path + [Decimal(i)])
    else if IsNumber(a) && IsNumber(b) then NumberOf(a) == NumberOf(b)
    else a == b
  }

  lemma NormalKeepsStrings(v: Doc, path: seq<string>)
    requires Normal(v, path).Some?
    ensures Normal(v, path).value.Str? <==> v.Str?
    ensures v.Str? ==> Normal(v, path).value == v
  {
  }

  lemma {:induction false} SetFormIs(items: seq<Doc>, path: seq<string>)
    requires SetLike(path) && Normal(Arr(items), path).Some?
    ensures AllStrings(items) && Normal(Arr(items), path) == SetForm(items)
  {
    var out := seq(|items|, i requires 0 <= i < |items| => Normal(items[i], path + [Decimal(i)]).value);
    forall i | 0 <= i < |items| ensures items[i].Str? && out[i] == items[i] {
      assert Normal(items[i], path + [Decimal(i)]).Some? && out[i].Str?;
      NormalKeepsStrings(items[i], path + [Decimal(i)]);
    }
    assert out == items;
  }

  lemma {:induction false} SetFormsDecide(x: seq<Doc>, y: seq<Doc>)
    requires AllStrings(x) && AllStrings(y)
    ensures SetForm(x) == SetForm(y) <==> forall s :: Str(s) in x <==> Str(s) in y
  {
    var a, b := StringsOf(x), StringsOf(y);
    KeysAreInjective();
    SortedSetDecides(BY_SCALARS, a, b);
    StringsInjective(SortedSet(BY_SCALARS, a), SortedSet(BY_SCALARS, b));
    forall s ensures (s in a <==> Str(s) in x) && (s in b <==> Str(s) in y) {
      StringMember(x, s);
      StringMember(y, s);
    }
    hide SortedSet;
    assert SameElements(a, b) <==> forall s :: Str(s) in x <==> Str(s) in y;
  }

  lemma StringMember(x: seq<Doc>, s: string)
    requires AllStrings(x)
    ensures s in StringsOf(x) <==> Str(s) in x
  {
    if s in StringsOf(x) { var i :| 0 <= i < |x| && StringsOf(x)[i] == s; assert x[i] == Str(s); }
    if Str(s) in x { var i :| 0 <= i < |x| && x[i] == Str(s); assert StringsOf(x)[i] == s; }
  }

  lemma StringsInjective(a: seq<string>, b: seq<string>)
    ensures Strings(a) == Strings(b) <==> a == b
  {
    if Strings(a) == Strings(b) {
      forall i | 0 <= i < |a| ensures a[i] == b[i] { assert Strings(a)[i] == Strings(b)[i]; }
    }
  }

  /** Two accepted documents normalise alike exactly when they are the same in that sense. */
  lemma {:induction false} NormalDecides(a: Doc, b: Doc, path: seq<string>)
    requires Normal(a, path).Some? && Normal(b, path).Some?
    ensures Normal(a, path) == Normal(b, path) <==> Same(a, b, path)
    decreases a
  {
    if a.Obj? && b.Obj? {
      ObjectsDecide(a, b, path);
    } else if a.Arr? && b.Arr? {
      if SetLike(path) {
        SetFormIs(a.items, path);
        SetFormIs(b.items, path);
        SetFormsDecide(a.items, b.items);
      } else {
        ArraysDecide(a, b, path);
      }
    } else {
      KindIsKept(a, path);
      KindIsKept(b, path);
    }
  }

  lemma KindIsKept(v: Doc, path: seq<string>)
    requires Normal(v, path).Some?
    ensures v.Obj? <==> Normal(v, path).value.Obj?
    ensures v.Arr? <==> Normal(v, path).value.Arr?
    ensures IsNumber(v) ==> NumberOf(v).Some? && Normal(v, path).value == Int64(NumberOf(v).value)
    ensures !v.Obj? && !v.Arr? && !IsNumber(v) ==> Normal(v, path).value == v
  {
  }

  lemma {:induction false} ObjectsDecide(a: Doc, b: Doc, path: seq<string>)
    requires a.Obj? && b.Obj? && Normal(a, path).Some? && Normal(b, path).Some?
    ensures Normal(a, path) == Normal(b, path) <==> Same(a, b, path)
    decreases a, 0
  {
    var x, y := Normal(a, path).value.fields, Normal(b, path).value.fields;
    assert x.Keys == a.fields.Keys && y.Keys == b.fields.Keys;
    forall k | k in a.fields && k in b.fields
      ensures x[k] == y[k] <==> Same(a.fields[k], b.fields[k], path + [k])
    {
      NormalDecides(a.fields[k], b.fields[k], path + [k]);
    }
    if Same(a, b, path) { assert x == y; }
    if x == y {
      forall k | k in a.fields ensures k in b.fields && Same(a.fields[k], b.fields[k], path + [k]) {
        assert k in x;
      }
    }
  }

  lemma {:induction false} ArraysDecide(a: Doc, b: Doc, path: seq<string>)
    requires a.Arr? && b.Arr? && !SetLike(path) && Normal(a, path).Some? && Normal(b, path).Some?
    ensures Normal(a, path) == Normal(b, path) <==> Same(a, b, path)
    decreases a, 0
  {
    var x, y := Normal(a, path).value.items, Normal(b, path).value.items;
    if |a.items| == |b.items| {
      forall i | 0 <= i < |a.items|
        ensures x[i] == y[i] <==> Same(a.items[i], b.items[i], path + [Decimal(i)])
      {
        NormalDecides(a.items[i], b.items[i], path + [Decimal(i)]);
      }
      if Same(a, b, path) { assert x == y; }
      if x == y {
        forall i | 0 <= i < |a.items| ensures Same(a.items[i], b.items[i], path + [Decimal(i)]) {
          assert x[i] == y[i];
        }
      }
    }
  }

  /** Normalising again changes nothing. */
  lemma {:induction false} NormalIdempotent(v: Doc, path: seq<string>)
    requires Normal(v, path).Some?
    ensures Normal(Normal(v, path).value, path) == Normal(v, path)
    decreases v
  {
    var n := Normal(v, path).value;
    match v
    case Obj(m) =>
      forall k | k in m ensures Normal(n.fields[k], path + [k]) == Some(n.fields[k]) {
        NormalIdempotent(m[k], path + [k]);
      }
      assert n.fields.Keys == m.Keys;
      ObjectNormalIs(n.fields, path, n.fields);
    case Arr(items) =>
      if SetLike(path) {
        SetFormIs(items, path);
        SetFormIdempotent(items, path);
      } else {
        forall i | 0 <= i < |items| ensures Normal(n.items[i], path + [Decimal(i)]) == Some(n.items[i]) {
          NormalIdempotent(items[i], path + [Decimal(i)]);
        }
        ArrayNormalIs(n.items, path, n.items);
      }
    case _ =>
  }

  lemma {:induction false} SetFormIdempotent(items: seq<Doc>, path: seq<string>)
    requires SetLike(path) && AllStrings(items)
    ensures Normal(SetForm(items).value, path) == SetForm(items)
  {
    var n := SetForm(items).value;
    assert AllStrings(n.items);
    forall i | 0 <= i < |n.items| ensures Normal(n.items[i], path + [Decimal(i)]) == Some(n.items[i]) {}
    ArrayNormalIs(n.items, path, n.items);
    var ss := SortedSet(BY_SCALARS, StringsOf(items));
    assert StringsOf(n.items) == ss;
    KeysAreInjective();
    SortedSetIs(BY_SCALARS, StringsOf(items));
    SortedSetIs(BY_SCALARS, ss);
    StrictUnique(BY_SCALARS, SortedSet(BY_SCALARS, ss), ss);
  }

  // ---------------------------------------------------------------- the digested text

  /** Holds no value of a kind the serialiser panics on, such as a YAML timestamp. */
  predicate NoOther(v: Doc) {
    match v
    case Obj(m) => forall k | k in m :: NoOther(m[k])
    case Arr(items) => forall i | 0 <= i < |items| :: NoOther(items[i])
    case Other(_) => false
    case _ => true
  }

  lemma {:induction false} NormalSerialisable(v: Doc, path: seq<string>)
    requires Normal(v, path).Some?
    ensures Serialisable(Normal(v, path).value) <==> NoOther(v)
    decreases v
  {
    var n := Normal(v, path).value;
    match v
    case Obj(m) =>
      forall k | k in m ensures Serialisable(n.fields[k]) <==> NoOther(m[k]) {
        NormalSerialisable(m[k], path + [k]);
      }
      assert n.fields.Keys == m.Keys;
    case Arr(items) =>
      if SetLike(path) {
        SetFormIs(items, path);
        assert AllStrings(n.items);
        assert forall i | 0 <= i < |items| :: items[i].Str?;
      } else {
        forall i | 0 <= i < |items| ensures Serialisable(n.items[i]) <==> NoOther(items[i]) {
          NormalSerialisable(items[i], path + [Decimal(i)]);
        }
      }
    case _ =>
  }

  /** An unquoted date is such a value: it passes the normaliser and stops the serialiser. */
  lemma OtherPassesNormalise(tag: int)
    ensures var doc := Obj(map["version" := Other(tag)]);
            Normal(doc, []) == Some(doc) && !Serialisable(doc)
  {
    var m := map["version" := Other(tag)];
    assert Normal(m["version"], [] + ["version"]) == Some(Other(tag));
    ObjectNormalIs(m, [], m);
    assert "version" in m && !Serialisable(m["version"]);
  }

  /** The text Digest hashes. */
  ghost function DigestText(doc: Doc): Option<string>
    requires NoOther(doc)
  {
    if Normal(doc, []).None? then None
    else
      NormalSerialisable(doc, []);
      Some(Serialise(Normal(doc, []).value))
  }

  /**
    Two accepted manifests have one digested text exactly when they are equal as JSON values up to
    order and repetition at the set-like paths: no other difference is lost, none is kept.
   */
  lemma {:induction false} DigestTextDecides(a: Doc, b: Doc)
    requires NoOther(a) && NoOther(b) && DigestText(a).Some? && DigestText(b).Some?
    ensures DigestText(a) == DigestText(b) <==> Same(a, b, [])
  {
    NormalSerialisable(a, []);
    NormalSerialisable(b, []);
    NormalDecides(a, b, []);
    SerialiseInjective(Normal(a, []).value, Normal(b, []).value);
  }

  // ---------------------------------------------------------------- the serialiser's code

  /** strings.Builder. */
  class Builder {
    var text: string

    constructor ()
      ensures text == []
    {
      text := [];
    }

    method Write(s: string)
      modifies this
      ensures text == old(text) + s
    {
      text := text + s;
    }
  }

  method SerialiseTo(v: Doc, b: Builder)
    requires Serialisable(v)
    modifies b
    ensures b.text == old(b.text) + Serialise(v)
    decreases v
  {
    match v
    case Null => b.Write("null");
    case Bool(t) => b.Write(if t then "true" else "false");
    case Int64(i) => b.Write(Decimal(i));
    case Str(s) =>
      var text := EscapeString(s);
      b.Write(text);
    case Arr(items) => SerialiseArray(v, b);
    case Obj(fields) => SerialiseObject(v, b);
    case _ => assert false;
  }

  method SerialiseArray(v: Doc, b: Builder)
    requires v.Arr? && Serialisable(v)
    modifies b
    ensures b.text == old(b.text) + Serialise(v)
    decreases v, 0
  {
    ghost var all := b.text + Serialise(v);
    OpenArray(v, b.text);
    hide Serialise, Elements, Serialisable;
    b.Write(['[']);
    for i := 0 to |v.items|
      invariant all == b.text + Elements(v, i)
    {
      ElementStep(v, i, b.text);
      if i > 0 { b.Write([',']); }
      SerialiseTo(v.items[i], b);
    }
    CloseArray(v);
    b.Write([']']);
  }

  lemma OpenArray(v: Doc, at: string)
    requires v.Arr? && Serialisable(v)
    ensures at + Serialise(v) == at + ['['] + Elements(v, 0)
    ensures forall i | 0 <= i < |v.items| :: Serialisable(v.items[i])
  {
    ArrayText(v);
    hide Serialise, Elements;
  }

  lemma ArrayText(v: Doc)
    requires v.Arr? && Serialisable(v)
    ensures Serialise(v) == ['['] + Elements(v, 0)
  {
    hide Elements;
  }

  lemma ElementStep(v: Doc, i: nat, at: string)
    requires v.Arr? && Serialisable(v) && i < |v.items|
    ensures Serialisable(v.items[i])
    ensures at + Elements(v, i) == at + Comma(i) + Serialise(v.items[i]) + Elements(v, i + 1)
    ensures at + [] == at
  {
    GlueElement(at, Comma(i), Serialise(v.items[i]), Elements(v, i + 1));
  }

  lemma GlueElement(at: string, c: string, v: string, m: string)
    ensures at + (c + v + m) == at + c + v + m
  {
  }

  lemma CloseArray(v: Doc)
    requires v.Arr? && Serialisable(v)
    ensures Elements(v, |v.items|) == [']']
  {
  }

  method SerialiseObject(v: Doc, b: Builder)
    requires v.Obj? && Serialisable(v)
    modifies b
    ensures b.text == old(b.text) + Serialise(v)
    decreases v, 0
  {
    ghost var all := b.text + Serialise(v);
    var keys := SortKeys(v.fields.Keys);
    OpenObject(v, b.text);
    hide Serialise, Members, Serialisable, SortedKeys, Escape;
    b.Write(['{']);
    for i := 0 to |keys|
      invariant all == b.text + Members(v, keys, i)
    {
      MemberStep(v, keys, i, b.text);
      if i > 0 { b.Write([',']); }
      var key := EscapeString(keys[i]);
      b.Write(key);
      b.Write([':']);
      SerialiseTo(v.fields[keys[i]], b);
    }
    CloseObject(v, keys);
    b.Write(['}']);
  }

  lemma OpenObject(v: Doc, at: string)
    requires v.Obj? && Serialisable(v)
    ensures at + Serialise(v) == at + ['{'] + Members(v, SortedKeys(v.fields.Keys), 0)
    ensures forall k | k in v.fields :: Serialisable(v.fields[k])
  {
    hide SortedKeys, Members;
  }

  lemma MemberStep(v: Doc, keys: seq<string>, i: nat, at: string)
    requires v.Obj? && Serialisable(v) && i < |keys| && forall k | k in keys :: k in v.fields
    ensures Serialisable(v.fields[keys[i]])
    ensures at + Members(v, keys, i) ==
            at + Comma(i) + Escape(keys[i]) + [':'] + Serialise(v.fields[keys[i]]) + Members(v, keys, i + 1)
    ensures at + [] == at
  {
    GlueMember(at, Comma(i), Escape(keys[i]), Serialise(v.fields[keys[i]]), Members(v, keys, i + 1));
  }

  lemma GlueMember(at: string, c: string, k: string, v: string, m: string)
    ensures at + (c + k + [':'] + v + m) == at + c + k + [':'] + v + m
  {
  }

  lemma CloseObject(v: Doc, keys: seq<string>)
    requires v.Obj? && Serialisable(v) && forall k | k in keys :: k in v.fields
    ensures Members(v, keys, |keys|) == ['}']
  {
  }

  /** Collects the keys in whatever order the map yields them, then sorts. */
  method SortKeys(s: set<string>) returns (keys: seq<string>)
    ensures keys == SortedKeys(s)
    ensures Strict(BY_UTF16, keys)
  {
    var met: seq<string> := [];
    var left := s;
    while left != {}
      invariant multiset(met) + multiset(left) == multiset(s)
      decreases |left|
    {
      var k :| k in left;
      assert multiset(left) == multiset{k} + multiset(left - {k});
      met := met + [k];
      left := left - {k};
    }
    SortedKeysUnique(s, met);
    keys := SortBy(BY_UTF16, met);
  }
}
