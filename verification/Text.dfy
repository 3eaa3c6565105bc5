/** Byte strings and the handful of Go `strings` operations the route code is built on. */
module Text {
  type Byte = b: int | 0 <= b < 256
  type Bytes = seq<Byte>

  const SLASH: Byte := 0x2F
  const BACKSLASH: Byte := 0x5C
  const STAR: Byte := 0x2A
  const PERCENT: Byte := 0x25
  const DOT: Byte := 0x2E

  datatype Result<+T, +E> = Ok(value: T) | Err(error: E)

  /** strings.Split on a one-element separator. */
  function Split<T(==)>(s: seq<T>, sep: T): (parts: seq<seq<T>>)
    ensures |parts| >= 1
    ensures forall p | p in parts :: sep !in p
  {
    if s == [] then [[]]
    else
      var rest := Split(s[1..], sep);
      if s[0] == sep then [[]] + rest else [[s[0]] + rest[0]] + rest[1..]
  }

  /** strings.Join with a one-element separator. */
  function Join<T>(parts: seq<seq<T>>, sep: T): seq<T> {
    if |parts| == 0 then []
    else if |parts| == 1 then parts[0]
    else parts[0] + [sep] + Join(parts[1..], sep)
  }

  lemma {:induction false} JoinSplit<T>(s: seq<T>, sep: T)
    ensures Join(Split(s, sep), sep) == s
  {
    if s != [] {
      JoinSplit(s[1..], sep);
      var rest := Split(s[1..], sep);
      if s[0] == sep {
        assert ([[]] + rest)[1..] == rest;
      } else {
        var parts := [[s[0]] + rest[0]] + rest[1..];
        assert parts[1..] == rest[1..];
        if |rest| > 1 {
          assert Join(parts, sep) == [s[0]] + (rest[0] + [sep] + Join(rest[1..], sep));
        }
      }
    }
  }

  lemma {:induction false} SplitOfConcat<T>(a: seq<T>, b: seq<T>, sep: T)
    requires sep !in a
    ensures Split(a + [sep] + b, sep) == [a] + Split(b, sep)
  {
    if a == [] {
      assert ([] + [sep] + b)[1..] == b;
    } else {
      SplitOfConcat(a[1..], b, sep);
      assert (a + [sep] + b)[1..] == a[1..] + [sep] + b;
      assert [a[0]] + a[1..] == a;
    }
  }

  lemma {:induction false} SplitAtom<T>(a: seq<T>, sep: T)
    requires sep !in a
    ensures Split(a, sep) == [a]
  {
    if a != [] { SplitAtom(a[1..], sep); assert [a[0]] + a[1..] == a; }
  }

  lemma {:induction false} SplitJoin<T>(parts: seq<seq<T>>, sep: T)
    requires |parts| >= 1
    requires forall p | p in parts :: sep !in p
    ensures Split(Join(parts, sep), sep) == parts
  {
    if |parts| == 1 {
      SplitAtom(parts[0], sep);
    } else {
      SplitJoin(parts[1..], sep);
      SplitOfConcat(parts[0], Join(parts[1..], sep), sep);
      assert parts == [parts[0]] + parts[1..];
    }
  }

  // ---------------------------------------------------------------- loops that stop at the first error

  /** f of every element in order, or the first error. */
  function TryMap<A, B, E>(f: A -> Result<B, E>, xs: seq<A>): (r: Result<seq<B>, E>)
    ensures r.Ok? <==> forall i | 0 <= i < |xs| :: f(xs[i]).Ok?
    ensures r.Ok? ==> |r.value| == |xs| && forall i | 0 <= i < |xs| :: f(xs[i]) == Ok(r.value[i])
  {
    if xs == [] then Ok([])
    else
      var head := f(xs[0]);
      if head.Err? then Err(head.error)
      else
        var tail := TryMap(f, xs[1..]);
        if tail.Err? then tail else Ok([head.value] + tail.value)
  }

  /** The loop that computes TryMap has read i elements into out. */
  ghost predicate TrySoFar<A, B, E>(f: A -> Result<B, E>, xs: seq<A>, i: nat, out: seq<B>)
    requires i <= |xs|
  {
    var rest := TryMap(f, xs[i..]);
    |out| == i && TryMap(f, xs) == if rest.Err? then rest else Ok(out + rest.value)
  }

  lemma TryStart<A, B, E>(f: A -> Result<B, E>, xs: seq<A>)
    ensures TrySoFar(f, xs, 0, [])
  {
    assert xs[0..] == xs;
    var rest := TryMap(f, xs);
    if rest.Ok? { assert [] + rest.value == rest.value; }
  }

  lemma TryStep<A, B, E>(f: A -> Result<B, E>, xs: seq<A>, i: nat, out: seq<B>)
    requires i < |xs| && TrySoFar(f, xs, i, out)
    ensures f(xs[i]).Err? ==> TryMap(f, xs) == Err(f(xs[i]).error)
    ensures f(xs[i]).Ok? ==> TrySoFar(f, xs, i + 1, out + [f(xs[i]).value])
  {
    assert xs[i..][1..] == xs[i + 1..];
    if f(xs[i]).Ok? {
      var n, rest := f(xs[i]).value, TryMap(f, xs[i + 1..]);
      if rest.Ok? { assert out + ([n] + rest.value) == out + [n] + rest.value; }
    }
  }

  lemma TryEnd<A, B, E>(f: A -> Result<B, E>, xs: seq<A>, out: seq<B>)
    requires TrySoFar(f, xs, |xs|, out)
    ensures TryMap(f, xs) == Ok(out)
  {
    assert xs[|xs|..] == [] && out + [] == out;
  }

  lemma {:induction false} TryMapSame<A, B, E>(f: A -> Result<B, E>, xs: seq<A>, ys: seq<A>)
    requires |xs| == |ys| && forall i | 0 <= i < |xs| :: f(xs[i]) == f(ys[i])
    ensures TryMap(f, xs) == TryMap(f, ys)
  {
    if xs != [] { TryMapSame(f, xs[1..], ys[1..]); }
  }

  // ---------------------------------------------------------------- loops that keep some elements

  function Filter<T>(p: T -> bool, xs: seq<T>): (r: seq<T>)
    ensures forall x | x in r :: x in xs && p(x)
    ensures r == [] <==> forall i | 0 <= i < |xs| :: !p(xs[i])
  {
    if xs == [] then []
    else
      var n := |xs| - 1;
      Filter(p, xs[..n]) + if p(xs[n]) then [xs[n]] else []
  }

  lemma FilterStep<T>(p: T -> bool, xs: seq<T>, i: nat)
    requires i < |xs|
    ensures Filter(p, xs[..i + 1]) == Filter(p, xs[..i]) + if p(xs[i]) then [xs[i]] else []
  {
    assert xs[..i + 1][..i] == xs[..i];
  }

  /** strings.HasSuffix. */
  predicate HasSuffix<T(==)>(s: seq<T>, t: seq<T>) {
    |t| <= |s| && s[|s| - |t|..] == t
  }

  predicate OccursAt<T(==)>(s: seq<T>, p: seq<T>, i: int) {
    0 <= i && i + |p| <= |s| && s[i..i + |p|] == p
  }

  /** strings.Index: the leftmost occurrence of p in s, or -1. */
  function Index<T(==)>(s: seq<T>, p: seq<T>): (i: int)
    ensures i == -1 ==> forall j :: !OccursAt(s, p, j)
    ensures i != -1 ==> OccursAt(s, p, i) && forall j :: OccursAt(s, p, j) ==> i <= j
  {
    IndexFrom(s, p, 0)
  }

  function IndexFrom<T(==)>(s: seq<T>, p: seq<T>, at: nat): (i: int)
    requires at <= |s| + 1
    ensures i == -1 ==> forall j :: at <= j ==> !OccursAt(s, p, j)
    ensures i != -1 ==> at <= i && OccursAt(s, p, i) && forall j :: at <= j && OccursAt(s, p, j) ==> i <= j
    decreases |s| + 1 - at
  {
    if at + |p| > |s| then -1
    else if s[at..at + |p|] == p then at
    else IndexFrom(s, p, at + 1)
  }

  /** strings.TrimPrefix with a one-byte prefix. */
  function TrimPrefix(s: Bytes, c: Byte): Bytes {
    if s != [] && s[0] == c then s[1..] else s
  }
}
