/** Lexicographic order, sorting by a key, and the in-place removal of adjacent duplicates. */
module Order {
  /** a comes strictly before b, element by element, a proper prefix first. */
  predicate Lex(a: seq<int>, b: seq<int>) {
    b != [] && (a == [] || a[0] < b[0] || (a[0] == b[0] && Lex(a[1..], b[1..])))
  }

  lemma {:induction false} LexTotal(a: seq<int>, b: seq<int>)
    ensures Lex(a, b) || a == b || Lex(b, a)
    ensures !(Lex(a, b) && Lex(b, a)) && !(a == b && Lex(a, b))
  {
    if a != [] && b != [] && a[0] == b[0] {
      LexTotal(a[1..], b[1..]);
      assert a == [a[0]] + a[1..] && b == [b[0]] + b[1..];
    }
  }

  lemma {:induction false} LexTransitive(a: seq<int>, b: seq<int>, c: seq<int>)
    requires Lex(a, b) && Lex(b, c)
    ensures Lex(a, c)
  {
    if a != [] && a[0] == b[0] == c[0] { LexTransitive(a[1..], b[1..], c[1..]); }
  }

  // ---------------------------------------------------------------- sorting

  ghost predicate Ascending<T>(key: T -> seq<int>, xs: seq<T>) {
    forall i, j | 0 <= i < j < |xs| :: !Lex(key(xs[j]), key(xs[i]))
  }

  ghost predicate Strict<T>(key: T -> seq<int>, xs: seq<T>) {
    forall i, j | 0 <= i < j < |xs| :: Lex(key(xs[i]), key(xs[j]))
  }

  ghost predicate Injective<T(!new)>(key: T -> seq<int>) {
    forall x, y | key(x) == key(y) :: x == y
  }

  ghost predicate SameElements<T(!new)>(xs: seq<T>, ys: seq<T>) {
    forall x :: x in xs <==> x in ys
  }

  /** Comparing by key is irreflexive, transitive, and decides between any two different elements. */
  ghost predicate StrictTotal<T(!new)>(key: T -> seq<int>) {
    (forall x :: !Lex(key(x), key(x))) &&
    (forall x, y, z :: Lex(key(x), key(y)) && Lex(key(y), key(z)) ==> Lex(key(x), key(z))) &&
    forall x, y :: x == y || Lex(key(x), key(y)) || Lex(key(y), key(x))
  }

  lemma InjectiveIsTotal<T(!new)>(key: T -> seq<int>)
    requires Injective(key)
    ensures StrictTotal(key)
  {
    forall x ensures !Lex(key(x), key(x)) { LexTotal(key(x), key(x)); }
    forall x, y, z | Lex(key(x), key(y)) && Lex(key(y), key(z)) ensures Lex(key(x), key(z)) {
      LexTransitive(key(x), key(y), key(z));
    }
    forall x, y ensures x == y || Lex(key(x), key(y)) || Lex(key(y), key(x)) { LexTotal(key(x), key(y)); }
  }

  function Insert<T>(key: T -> seq<int>, x: T, xs: seq<T>): (r: seq<T>)
    ensures multiset(r) == multiset(xs) + multiset{x}
  {
    if xs == [] then [x]
    else if Lex(key(x), key(xs[0])) then [x] + xs
    else
      assert xs == [xs[0]] + xs[1..];
      [xs[0]] + Insert(key, x, xs[1..])
  }

  /** The outcome of sort.Slice or sort.Strings: the same elements, ascending by key. */
  function SortBy<T>(key: T -> seq<int>, xs: seq<T>): (r: seq<T>)
    ensures multiset(r) == multiset(xs)
  {
    if xs == [] then []
    else
      assert xs == [xs[0]] + xs[1..];
      Insert(key, xs[0], SortBy(key, xs[1..]))
  }

  lemma {:induction false} InsertAscends<T>(key: T -> seq<int>, x: T, xs: seq<T>)
    requires Ascending(key, xs)
    ensures Ascending(key, Insert(key, x, xs))
  {
    if xs != [] {
      var r := Insert(key, x, xs);
      if Lex(key(x), key(xs[0])) {
        forall i, j | 0 <= i < j < |r| ensures !Lex(key(r[j]), key(r[i])) {
          if i == 0 {
            LexTotal(key(xs[0]), key(xs[0]));
            NotBefore(key(x), key(xs[0]), key(xs[j - 1]));
          }
        }
      } else {
        InsertAscends(key, x, xs[1..]);
        var rest := Insert(key, x, xs[1..]);
        forall i, j | 0 <= i < j < |r| ensures !Lex(key(r[j]), key(r[i])) {
          if i == 0 {
            assert r[j] == rest[j - 1] && rest[j - 1] in multiset(rest);
            if r[j] != x {
              assert r[j] in multiset(xs[1..]);
              var k :| 0 <= k < |xs[1..]| && xs[1..][k] == r[j];
              assert xs[k + 1] == r[j];
            }
          } else {
            assert r[i] == rest[i - 1] && r[j] == rest[j - 1];
          }
        }
      }
    }
  }

  lemma NotBefore(a: seq<int>, b: seq<int>, c: seq<int>)
    requires Lex(a, b) && !Lex(c, b)
    ensures !Lex(c, a)
  {
    if Lex(c, a) { LexTransitive(c, a, b); }
  }

  lemma {:induction false} SortByAscends<T>(key: T -> seq<int>, xs: seq<T>)
    ensures Ascending(key, SortBy(key, xs))
  {
    if xs != [] {
      SortByAscends(key, xs[1..]);
      InsertAscends(key, xs[0], SortBy(key, xs[1..]));
    }
  }

  lemma SortKeepsElements<T(!new)>(key: T -> seq<int>, xs: seq<T>)
    ensures SameElements(SortBy(key, xs), xs)
  {
    forall x ensures x in SortBy(key, xs) <==> x in xs {
      assert x in multiset(SortBy(key, xs)) <==> x in multiset(xs);
    }
  }

  /** A strictly ascending sequence is determined by its elements. */
  lemma {:induction false} StrictUnique<T(!new)>(key: T -> seq<int>, xs: seq<T>, ys: seq<T>)
    requires Strict(key, xs) && Strict(key, ys) && SameElements(xs, ys)
    ensures xs == ys
  {
    if ys != [] { assert ys[0] in xs; }
    if xs != [] {
      assert xs[0] in ys;
      var k :| 0 <= k < |ys| && ys[k] == xs[0];
      assert ys[0] in xs;
      var m :| 0 <= m < |xs| && xs[m] == ys[0];
      if k > 0 { LexTotal(key(ys[0]), key(ys[k])); }
      assert xs[0] == ys[0];
      forall x ensures x in xs[1..] <==> x in ys[1..] {
        TailMembers(key, xs, x);
        TailMembers(key, ys, x);
      }
      StrictUnique(key, xs[1..], ys[1..]);
      assert xs == [xs[0]] + xs[1..] && ys == [ys[0]] + ys[1..];
    }
  }

  lemma TailMembers<T>(key: T -> seq<int>, xs: seq<T>, x: T)
    requires Strict(key, xs) && xs != []
    ensures x in xs[1..] <==> x in xs && x != xs[0]
  {
    if x in xs[1..] {
      var k :| 0 <= k < |xs[1..]| && xs[1..][k] == x;
      assert xs[k + 1] == x;
      LexTotal(key(xs[0]), key(xs[k + 1]));
    }
    if x in xs && x != xs[0] {
      var k :| 0 <= k < |xs| && xs[k] == x;
      assert xs[1..][k - 1] == x;
    }
  }

  /** Sorting distinct elements by an injective key gives a strict order. */
  lemma {:induction false} SortDistinct<T(!new)>(key: T -> seq<int>, xs: seq<T>)
    requires Injective(key) && forall x | x in xs :: multiset(xs)[x] == 1
    ensures Strict(key, SortBy(key, xs))
  {
    var ys := SortBy(key, xs);
    SortByAscends(key, xs);
    forall i, j | 0 <= i < j < |ys| ensures Lex(key(ys[i]), key(ys[j])) {
      LexTotal(key(ys[i]), key(ys[j]));
      assert ys[i] in multiset(xs);
      assert ys[i] in xs;
      if ys[i] == ys[j] { TwiceInMultiset(ys, i, j); }
    }
  }

  lemma TwiceInMultiset<T>(ys: seq<T>, i: nat, j: nat)
    requires i < j < |ys| && ys[i] == ys[j]
    ensures multiset(ys)[ys[i]] >= 2
  {
    assert ys == ys[..j] + [ys[j]] + ys[j + 1..];
    assert ys[..j][i] == ys[i];
    assert multiset(ys) == multiset(ys[..j]) + multiset{ys[j]} + multiset(ys[j + 1..]);
    assert ys[i] in multiset(ys[..j]);
  }

  // ---------------------------------------------------------------- adjacent duplicates

  /** xs without the elements equal to their predecessor. */
  function Dedup<T(==)>(xs: seq<T>): (r: seq<T>)
    ensures |r| <= |xs|
    ensures xs != [] ==> r != [] && r[|r| - 1] == xs[|xs| - 1]
  {
    if |xs| <= 1 then xs
    else
      var n := |xs| - 1;
      if xs[n] == xs[n - 1] then Dedup(xs[..n]) else Dedup(xs[..n]) + [xs[n]]
  }

  /** The `ded := s[:0]` loop: kept elements overwrite the array being read. */
  method DedupInPlace<T(==)>(a: array<T>) returns (n: nat)
    modifies a
    ensures n <= a.Length && a[..n] == Dedup(old(a[..]))
  {
    n := 0;
    ghost var was := a[..];
    var i := 0;
    while i < a.Length
      invariant 0 <= n <= i <= a.Length
      invariant a[..n] == Dedup(was[..i])
      invariant i > 0 ==> a[i - 1] == was[i - 1]
      invariant forall k | i <= k < a.Length :: a[k] == was[k]
    {
      var s := a[i];
      assert was[..i + 1][..i] == was[..i];
      if i == 0 || s != a[i - 1] {
        a[n] := s;
        n := n + 1;
      }
      i := i + 1;
    }
    assert was[..a.Length] == was;
  }

  lemma {:induction false} DedupKeepsElements<T(!new)>(xs: seq<T>)
    ensures SameElements(Dedup(xs), xs)
  {
    if |xs| > 1 {
      var n := |xs| - 1;
      DedupKeepsElements(xs[..n]);
      assert xs == xs[..n] + [xs[n]];
      assert xs[n - 1] == xs[..n][n - 1];
      assert xs[n - 1] in xs[..n];
    }
  }

  lemma {:induction false} DedupStrict<T(!new)>(key: T -> seq<int>, xs: seq<T>)
    requires Injective(key) && Ascending(key, xs)
    ensures Strict(key, Dedup(xs))
  {
    if |xs| > 1 {
      var n := |xs| - 1;
      assert xs[..n] == xs[..n][..];
      assert Ascending(key, xs[..n]);
      DedupStrict(key, xs[..n]);
      if xs[n] != xs[n - 1] {
        var d := Dedup(xs[..n]);
        DedupKeepsElements(xs[..n]);
        forall i | 0 <= i < |d| ensures Lex(key(d[i]), key(xs[n])) {
          assert d[i] in xs[..n];
          var k :| 0 <= k < n && xs[k] == d[i];
          LexTotal(key(xs[k]), key(xs[n - 1]));
          LexTotal(key(xs[k]), key(xs[n]));
          LexTotal(key(xs[n - 1]), key(xs[n]));
          assert k == n - 1 || !Lex(key(xs[n - 1]), key(xs[k]));
        }
      }
    }
  }

  /** The strictly ascending list of the elements of xs. */
  function SortedSet<T(==)>(key: T -> seq<int>, xs: seq<T>): seq<T> {
    Dedup(SortBy(key, xs))
  }

  lemma SortedSetIs<T(!new)>(key: T -> seq<int>, xs: seq<T>)
    requires Injective(key)
    ensures Strict(key, SortedSet(key, xs)) && SameElements(SortedSet(key, xs), xs)
  {
    SortByAscends(key, xs);
    SortKeepsElements(key, xs);
    DedupStrict(key, SortBy(key, xs));
    DedupKeepsElements(SortBy(key, xs));
  }

  /** Sorting and removing duplicates forgets exactly order and repetition. */
  lemma SortedSetDecides<T(!new)>(key: T -> seq<int>, xs: seq<T>, ys: seq<T>)
    requires Injective(key)
    ensures SortedSet(key, xs) == SortedSet(key, ys) <==> SameElements(xs, ys)
  {
    SortedSetIs(key, xs);
    SortedSetIs(key, ys);
    if SameElements(xs, ys) {
      StrictUnique(key, SortedSet(key, xs), SortedSet(key, ys));
    }
    if SortedSet(key, xs) == SortedSet(key, ys) {
      forall x ensures x in xs <==> x in ys {
        assert x in SortedSet(key, xs) <==> x in SortedSet(key, ys);
      }
    }
  }
}
