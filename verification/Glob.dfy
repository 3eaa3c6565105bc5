/**
  The route glob: routepath.Match with its greedy segment matcher, the declarative meaning of a
  glob, and the regexp-based matcher of internal/contracts.
 */
module Glob {
  import opened Text

  // ---------------------------------------------------------------- meaning

  /** parts[0] + fills[0] + parts[1] + ... + fills[n-1] + parts[n]. */
  function Weave(parts: seq<Bytes>, fills: seq<Bytes>): Bytes
    requires |parts| == |fills| + 1
  {
    if |fills| == 0 then parts[0]
    else parts[0] + fills[0] + Weave(parts[1..], fills[1..])
  }

  ghost predicate WovenBy(parts: seq<Bytes>, s: Bytes, fills: seq<Bytes>) {
    |parts| == |fills| + 1 && s == Weave(parts, fills)
  }

  /** s is the literal parts in order with some string in each gap. */
  ghost predicate Woven(parts: seq<Bytes>, s: Bytes) {
    exists fills :: WovenBy(parts, s, fills)
  }

  /** What a one-segment pattern means: each '*' stands for any string. */
  ghost predicate SegmentGlob(pattern: Bytes, seg: Bytes) {
    Woven(Split(pattern, STAR), seg)
  }

  function Segments(path: Bytes): (segs: seq<Bytes>)
    ensures |segs| >= 1
    ensures forall p | p in segs :: SLASH !in p
  {
    Split(TrimPrefix(path, SLASH), SLASH)
  }

  /** What a path pattern means: segment by segment, '*' never crossing '/'. */
  ghost predicate PathGlob(pattern: Bytes, path: Bytes) {
    var ps, ss := Segments(pattern), Segments(path);
    |ps| == |ss| && forall i | 0 <= i < |ps| :: SegmentGlob(ps[i], ss[i])
  }

  /** No two stars in a row, as the manifest and lock schemas require. */
  predicate NoStarRuns(p: Bytes) { forall i | 0 < i < |p| :: !(p[i - 1] == STAR && p[i] == STAR) }

  lemma {:induction false} FirstPart(s: Bytes, sep: Byte)
    ensures Split(s, sep)[0] <= s
  {
    if s != [] && s[0] != sep { FirstPart(s[1..], sep); }
  }

  lemma {:induction false} PartsHaveNoRuns(s: Bytes, sep: Byte, k: nat)
    requires NoStarRuns(s) && k < |Split(s, sep)|
    ensures NoStarRuns(Split(s, sep)[k])
  {
    if s != [] {
      var rest := Split(s[1..], sep);
      assert forall i | 0 < i < |s[1..]| :: s[1..][i - 1] == s[i] && s[1..][i] == s[i + 1];
      if s[0] == sep {
        if k > 0 { PartsHaveNoRuns(s[1..], sep, k - 1); }
      } else {
        PartsHaveNoRuns(s[1..], sep, k);
        FirstPart(s[1..], sep);
      }
    }
  }

  // ---------------------------------------------------------------- the greedy matcher is exact

  lemma {:induction false} NoGap(part: Bytes, s: Bytes)
    ensures Woven([part], s) <==> s == part
  {
    assert WovenBy([part], part, []);
  }

  lemma {:induction false} OneGap(s: Bytes)
    ensures Woven([[], []], s)
  {
    assert Weave([[], []], [s]) == [] + s + Weave([[]], []);
    assert WovenBy([[], []], s, [s]);
  }

  /** Anchoring the first part loses nothing. */
  lemma {:induction false} PeelFirst(parts: seq<Bytes>, s: Bytes)
    requires |parts| >= 2
    ensures Woven(parts, s) <==> parts[0] <= s && Woven([[]] + parts[1..], s[|parts[0]|..])
  {
    var open := [[]] + parts[1..];
    if Woven(parts, s) {
      var fills :| WovenBy(parts, s, fills);
      assert s == parts[0] + (fills[0] + Weave(parts[1..], fills[1..]));
      assert open[1..] == parts[1..];
      assert WovenBy(open, s[|parts[0]|..], fills);
    }
    if parts[0] <= s && Woven(open, s[|parts[0]|..]) {
      var fills :| WovenBy(open, s[|parts[0]|..], fills);
      assert open[1..] == parts[1..];
      assert s == parts[0] + s[|parts[0]|..];
      assert WovenBy(parts, s, fills);
    }
  }

  lemma {:induction false} WeaveLast(parts: seq<Bytes>, fills: seq<Bytes>)
    requires |parts| == |fills| + 1 && |parts| >= 2
    ensures Weave(parts, fills) == Weave(parts[..|parts| - 1] + [[]], fills) + parts[|parts| - 1]
  {
    var cut := parts[..|parts| - 1] + [[]];
    if |parts| == 2 {
      assert cut[1..] == [[]] && parts[1..] == [parts[1]];
    } else {
      WeaveLast(parts[1..], fills[1..]);
      assert cut[1..] == parts[1..][..|parts| - 2] + [[]];
    }
  }

  /** Anchoring the last part loses nothing. */
  lemma {:induction false} PeelLast(parts: seq<Bytes>, s: Bytes)
    requires |parts| >= 2
    ensures var last := parts[|parts| - 1];
            Woven(parts, s) <==>
            HasSuffix(s, last) && Woven(parts[..|parts| - 1] + [[]], s[..|s| - |last|])
  {
    var last := parts[|parts| - 1];
    var cut := parts[..|parts| - 1] + [[]];
    if Woven(parts, s) {
      var fills :| WovenBy(parts, s, fills);
      WeaveLast(parts, fills);
      assert WovenBy(cut, s[..|s| - |last|], fills);
    }
    if HasSuffix(s, last) && Woven(cut, s[..|s| - |last|]) {
      var fills :| WovenBy(cut, s[..|s| - |last|], fills);
      WeaveLast(parts, fills);
      assert s == s[..|s| - |last|] + last;
      assert WovenBy(parts, s, fills);
    }
  }

  lemma {:induction false} WeaveMiddle(p: Bytes, rest: seq<Bytes>, fills: seq<Bytes>)
    requires |rest| >= 1 && |fills| == |rest| + 1
    ensures Weave([[], p] + rest, fills) == fills[0] + (p + Weave([[]] + rest, fills[1..]))
  {
    assert [[], p] + rest == [[]] + ([p] + rest);
  }

  /** Taking the leftmost occurrence of a middle part loses nothing; without one there is no match. */
  lemma {:induction false} PeelMiddle(p: Bytes, rest: seq<Bytes>, s: Bytes)
    requires |rest| >= 1
    ensures var i := Index(s, p);
            Woven([[], p] + rest, s) <==> i != -1 && Woven([[]] + rest, s[i + |p|..])
  {
    var i := Index(s, p);
    if Woven([[], p] + rest, s) {
      var fills :| WovenBy([[], p] + rest, s, fills);
      var k := MiddleOccurrence(p, rest, s, fills);
      assert i != -1 && i <= k;
      SlideLeft(p, rest, s, i, k, fills[1..]);
    }
    if i != -1 && Woven([[]] + rest, s[i + |p|..]) {
      var fills :| WovenBy([[]] + rest, s[i + |p|..], fills);
      OccurrenceWeaves(p, rest, s, i, fills);
    }
  }

  lemma {:induction false} MiddleOccurrence(p: Bytes, rest: seq<Bytes>, s: Bytes, fills: seq<Bytes>)
    returns (k: nat)
    requires |rest| >= 1 && WovenBy([[], p] + rest, s, fills)
    ensures OccursAt(s, p, k) && WovenBy([[]] + rest, s[k + |p|..], fills[1..])
  {
    WeaveMiddle(p, rest, fills);
    k := |fills[0]|;
    assert s[k + |p|..] == Weave([[]] + rest, fills[1..]);
  }

  /** A match using the occurrence at k also exists using an earlier one at i. */
  lemma {:induction false} SlideLeft(p: Bytes, rest: seq<Bytes>, s: Bytes, i: nat, k: nat, fills: seq<Bytes>)
    requires |rest| >= 1 && i <= k && k + |p| <= |s|
    requires WovenBy([[]] + rest, s[k + |p|..], fills)
    ensures Woven([[]] + rest, s[i + |p|..])
  {
    WidenFirstGap(s[i + |p|..k + |p|], rest, s[k + |p|..], fills);
    assert s[i + |p|..] == s[i + |p|..k + |p|] + s[k + |p|..];
  }

  lemma {:induction false} OccurrenceWeaves(p: Bytes, rest: seq<Bytes>, s: Bytes, i: int, fills: seq<Bytes>)
    requires |rest| >= 1 && OccursAt(s, p, i) && WovenBy([[]] + rest, s[i + |p|..], fills)
    ensures Woven([[], p] + rest, s)
  {
    WeaveMiddle(p, rest, [s[..i]] + fills);
    assert ([s[..i]] + fills)[1..] == fills;
    assert s == s[..i] + (s[i..i + |p|] + s[i + |p|..]);
    assert WovenBy([[], p] + rest, s, [s[..i]] + fills);
  }

  lemma {:induction false} WidenFirstGap(x: Bytes, rest: seq<Bytes>, tail: Bytes, fills: seq<Bytes>)
    requires |rest| >= 1 && WovenBy([[]] + rest, tail, fills)
    ensures Woven([[]] + rest, x + tail)
  {
    var wider := [x + fills[0]] + fills[1..];
    assert wider[1..] == fills[1..];
    assert x + tail == (x + fills[0]) + Weave(rest, fills[1..]);
    assert WovenBy([[]] + rest, x + tail, wider);
  }

  /** An empty middle part ("**") constrains nothing, which is why the loop skips it. */
  lemma EmptyMiddle(rest: seq<Bytes>, s: Bytes)
    requires |rest| >= 1
    ensures Woven([[], []] + rest, s) <==> Woven([[]] + rest, s)
  {
    PeelMiddle([], rest, s);
    assert OccursAt(s, [], 0);
    assert s[0..] == s;
  }

  /** routepath.matchSegment. */
  method MatchSegment(pattern: Bytes, segment: Bytes) returns (ok: bool)
    ensures ok <==> SegmentGlob(pattern, segment)
  {
    if STAR !in pattern {
      SplitAtom(pattern, STAR);
      NoGap(pattern, segment);
      return pattern == segment;
    }
    var parts := Split(pattern, STAR);
    StarSplits(pattern);
    var first, last := parts[0], parts[|parts| - 1];
    var seg := segment;
    PeelFirst(parts, seg);
    if !(first <= seg) { return false; }
    seg := seg[|first|..];
    PeelLast([[]] + parts[1..], seg);
    if !HasSuffix(seg, last) { return false; }
    seg := seg[..|seg| - |last|];
    var middle := parts[1..|parts| - 1];
    assert ([[]] + parts[1..])[..|parts| - 1] + [[]] == [[]] + middle + [[]];
    var n := 0;
    while n < |middle|
      invariant 0 <= n <= |middle|
      invariant SegmentGlob(pattern, segment) <==> Woven([[]] + middle[n..] + [[]], seg)
    {
      var part := middle[n];
      var rest := middle[n + 1..] + [[]];
      assert [[]] + middle[n..] + [[]] == [[], part] + rest;
      assert [[]] + middle[n + 1..] + [[]] == [[]] + rest;
      if part == [] {
        EmptyMiddle(rest, seg);
      } else {
        PeelMiddle(part, rest, seg);
        var idx := Index(seg, part);
        if idx == -1 { return false; }
        seg := seg[idx + |part|..];
      }
      n := n + 1;
    }
    assert [[]] + middle[n..] + [[]] == [[], []];
    OneGap(seg);
    return true;
  }

  lemma {:induction false} StarSplits(pattern: Bytes)
    requires STAR in pattern
    ensures |Split(pattern, STAR)| >= 2
  {
    if pattern[0] != STAR { StarSplits(pattern[1..]); }
  }

  /** routepath.Match. */
  method Match(pattern: Bytes, path: Bytes) returns (ok: bool)
    ensures ok <==> PathGlob(pattern, path)
  {
    var patternSegs, pathSegs := Segments(pattern), Segments(path);
    if |patternSegs| != |pathSegs| { return false; }
    for i := 0 to |patternSegs|
      invariant forall j | 0 <= j < i :: SegmentGlob(patternSegs[j], pathSegs[j])
    {
      var m := MatchSegment(patternSegs[i], pathSegs[i]);
      if !m { return false; }
    }
    return true;
  }

  // ---------------------------------------------------------------- the regexp matcher

  /** The fragment of a regular expression GlobMatch builds. */
  datatype Item = Literal(text: Bytes) | NotSlashRun

  /** Joins the quoted parts with the class run `[^/]*`. */
  function Items(parts: seq<Bytes>): seq<Item> {
    if |parts| == 0 then []
    else if |parts| == 1 then [Literal(parts[0])]
    else [Literal(parts[0]), NotSlashRun] + Items(parts[1..])
  }

  /** Anchored regular-expression matching: s is consumed whole by the items in turn. */
  ghost predicate RegexpMatches(items: seq<Item>, s: Bytes)
    decreases |items|
  {
    if |items| == 0 then s == []
    else match items[0]
      case Literal(text) => text <= s && RegexpMatches(items[1..], s[|text|..])
      case NotSlashRun => exists k :: RunLength(s, k) && RegexpMatches(items[1..], s[k..])
  }

  predicate RunLength(s: Bytes, k: int) {
    0 <= k <= |s| && SLASH !in s[..k]
  }

  /** On a slash-free segment, the regular expression and the woven form accept the same texts. */
  lemma {:induction false} RegexpIsWoven(parts: seq<Bytes>, s: Bytes)
    requires |parts| >= 1 && SLASH !in s
    ensures RegexpMatches(Items(parts), s) <==> Woven(parts, s)
  {
    if |parts| == 1 {
      NoGap(parts[0], s);
      assert parts == [parts[0]];
      assert Items(parts) == [Literal(parts[0])] && Items(parts)[1..] == [];
    } else {
      var items, tail := Items(parts), Items(parts[1..]);
      assert items[1..] == [NotSlashRun] + tail && items[1..][1..] == tail;
      PeelFirst(parts, s);
      if parts[0] <= s {
        var r := s[|parts[0]|..];
        assert RegexpMatches(items, s) <==> RegexpMatches(items[1..], r);
        assert RegexpMatches(items[1..], r) <==> exists k :: RunLength(r, k) && RegexpMatches(tail, r[k..]);
        forall k | 0 <= k <= |r|
          ensures RegexpMatches(tail, r[k..]) <==> Woven(parts[1..], r[k..])
        {
          RegexpIsWoven(parts[1..], r[k..]);
        }
        GapThen(parts[1..], r);
      }
    }
  }

  lemma {:induction false} GapThen(parts: seq<Bytes>, r: Bytes)
    requires |parts| >= 1 && SLASH !in r
    ensures Woven([[]] + parts, r) <==> exists k :: RunLength(r, k) && Woven(parts, r[k..])
  {
    assert ([[]] + parts)[1..] == parts;
    if Woven([[]] + parts, r) {
      var fills :| WovenBy([[]] + parts, r, fills);
      var k := |fills[0]|;
      assert r == fills[0] + Weave(parts, fills[1..]);
      assert WovenBy(parts, r[k..], fills[1..]);
      assert RunLength(r, k);
    }
    if k :| RunLength(r, k) && Woven(parts, r[k..]) {
      var fills :| WovenBy(parts, r[k..], fills);
      assert ([r[..k]] + fills)[1..] == fills;
      assert r == [] + r[..k] + r[k..];
      assert WovenBy([[]] + parts, r, [r[..k]] + fills);
    }
  }

  ghost predicate RegexpSegment(pattern: Bytes, seg: Bytes) {
    pattern == seg || (STAR in pattern && RegexpMatches(Items(Split(pattern, STAR)), seg))
  }

  /** contracts.GlobMatch: no leading slash is trimmed, so it compares one segment more. */
  ghost predicate RegexpPath(pattern: Bytes, path: Bytes) {
    var ps, ss := Split(pattern, SLASH), Split(path, SLASH);
    |ps| == |ss| && forall i | 0 <= i < |ps| :: RegexpSegment(ps[i], ss[i])
  }

  lemma {:induction false} EqualSegment(pattern: Bytes)
    ensures SegmentGlob(pattern, pattern)
  {
    var parts := Split(pattern, STAR);
    var fills := seq(|parts| - 1, i => [STAR]);
    JoinSplit(pattern, STAR);
    JoinIsWeave(parts, fills);
    assert WovenBy(parts, pattern, fills);
  }

  lemma {:induction false} JoinIsWeave(parts: seq<Bytes>, fills: seq<Bytes>)
    requires |parts| == |fills| + 1
    requires forall i | 0 <= i < |fills| :: fills[i] == [STAR]
    ensures Join(parts, STAR) == Weave(parts, fills)
  {
    if |fills| > 0 { JoinIsWeave(parts[1..], fills[1..]); }
  }

  lemma {:induction false} RegexpSegmentIsGlob(pattern: Bytes, seg: Bytes)
    requires SLASH !in seg
    ensures RegexpSegment(pattern, seg) <==> SegmentGlob(pattern, seg)
  {
    if pattern == seg {
      EqualSegment(pattern);
    } else if STAR in pattern {
      RegexpIsWoven(Split(pattern, STAR), seg);
    } else {
      SplitAtom(pattern, STAR);
      NoGap(pattern, seg);
    }
  }

  /**
    The two matchers, written independently, agree whenever both arguments are absolute (as every
    canonical path is), or neither is.
   */
  lemma {:induction false} MatchersAgree(pattern: Bytes, path: Bytes)
    requires ([SLASH] <= pattern) == ([SLASH] <= path)
    ensures RegexpPath(pattern, path) <==> PathGlob(pattern, path)
  {
    var ps, ss := Split(pattern, SLASH), Split(path, SLASH);
    var pt, st := Segments(pattern), Segments(path);
    if [SLASH] <= pattern {
      assert ps == [[]] + pt && ss == [[]] + st;
      assert |ps| == |ss| <==> |pt| == |st|;
      if |ps| == |ss| {
        assert RegexpSegment(ps[0], ss[0]);
        assert (forall i | 0 <= i < |ps| :: RegexpSegment(ps[i], ss[i])) <==>
               (forall i | 0 <= i < |pt| :: RegexpSegment(pt[i], st[i])) by {
          if forall i | 0 <= i < |ps| :: RegexpSegment(ps[i], ss[i]) {
            forall i | 0 <= i < |pt| ensures RegexpSegment(pt[i], st[i]) {
              assert RegexpSegment(ps[i + 1], ss[i + 1]);
            }
          }
          if forall i | 0 <= i < |pt| :: RegexpSegment(pt[i], st[i]) {
            forall i | 0 <= i < |ps| ensures RegexpSegment(ps[i], ss[i]) {
              if i > 0 { assert RegexpSegment(pt[i - 1], st[i - 1]); }
            }
          }
        }
      }
    }
    if |pt| == |st| {
      forall i | 0 <= i < |pt|
        ensures RegexpSegment(pt[i], st[i]) <==> SegmentGlob(pt[i], st[i])
      {
        RegexpSegmentIsGlob(pt[i], st[i]);
      }
    }
  }

  /** Without that condition they differ: only routepath.Match trims a leading slash. */
  lemma MatchersDisagree()
    ensures PathGlob([0x61], [SLASH, 0x61]) && !RegexpPath([0x61], [SLASH, 0x61])
  {
    var a: Bytes := [0x61];
    SplitAtom(a, SLASH);
    SplitOfConcat([], a, SLASH);
    assert [SLASH, 0x61] == [] + [SLASH] + a;
    assert [SLASH, 0x61][1..] == a;
    EqualSegment(a);
  }

  /** contracts.GlobMatch, with the compiled expression's verdict given by its meaning. */
  method GlobMatch(pattern: Bytes, path: Bytes) returns (ok: bool)
    ensures ok <==> RegexpPath(pattern, path)
    ensures ([SLASH] <= pattern) == ([SLASH] <= path) ==> (ok <==> PathGlob(pattern, path))
  {
    if ([SLASH] <= pattern) == ([SLASH] <= path) { MatchersAgree(pattern, path); }
    var pp, sp := Split(pattern, SLASH), Split(path, SLASH);
    if |pp| != |sp| { return false; }
    for i := 0 to |pp|
      invariant forall j | 0 <= j < i :: RegexpSegment(pp[j], sp[j])
    {
      if pp[i] != sp[i] {
        if STAR !in pp[i] { return false; }
        var m := RunRegexp(Items(Split(pp[i], STAR)), sp[i]);
        if !m { return false; }
      }
    }
    return true;
  }

  /** Backtracking regexp execution: tries every run length for `[^/]*`. */
  method RunRegexp(items: seq<Item>, s: Bytes) returns (ok: bool)
    ensures ok <==> RegexpMatches(items, s)
    decreases |items|
  {
    if |items| == 0 { return s == []; }
    match items[0]
    case Literal(text) =>
      if !(text <= s) { return false; }
      ok := RunRegexp(items[1..], s[|text|..]);
    case NotSlashRun =>
      var k := 0;
      while k <= |s|
        invariant 0 <= k <= |s| + 1
        invariant forall j | 0 <= j < k :: !(RunLength(s, j) && RegexpMatches(items[1..], s[j..]))
      {
        if RunLength(s, k) {
          var m := RunRegexp(items[1..], s[k..]);
          if m { return true; }
        }
        k := k + 1;
      }
      return false;
  }
}
