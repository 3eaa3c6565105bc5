/**
  When two route globs match the same paths: exactly when they have as many segments and each pair
  of segments is equal once runs of stars are read as one. So equality of what globs allow can be
  checked on their text.
 */
module GlobLanguage {
  import opened Text
  import opened Glob
  import opened RoutePath

  // ---------------------------------------------------------------- reading a segment byte by byte

  /** The glob read left to right: a star takes one more byte, or gives way. */
  predicate Reads(p: Bytes, s: Bytes)
    decreases |p| + |s|
  {
    if p == [] then s == []
    else if p[0] != STAR then s != [] && s[0] == p[0] && Reads(p[1..], s[1..])
    else Reads(p[1..], s) || (s != [] && Reads(p, s[1..]))
  }

  lemma {:induction false} WovenLiteral(c: Byte, head: Bytes, rest: seq<Bytes>, s: Bytes)
    ensures Woven([[c] + head] + rest, s) <==> s != [] && s[0] == c && Woven([head] + rest, s[1..])
  {
    var with, without := [[c] + head] + rest, [head] + rest;
    assert with[1..] == rest == without[1..];
    if Woven(with, s) {
      var fills :| WovenBy(with, s, fills);
      WeaveLiteral(c, head, rest, fills);
      assert WovenBy(without, s[1..], fills);
    }
    if s != [] && s[0] == c && Woven(without, s[1..]) {
      var fills :| WovenBy(without, s[1..], fills);
      WeaveLiteral(c, head, rest, fills);
      assert s == [c] + s[1..];
      assert WovenBy(with, s, fills);
    }
  }

  lemma WeaveLiteral(c: Byte, head: Bytes, rest: seq<Bytes>, fills: seq<Bytes>)
    requires |rest| == |fills|
    ensures Weave([[c] + head] + rest, fills) == [c] + Weave([head] + rest, fills)
  {
    var with, without := [[c] + head] + rest, [head] + rest;
    assert with[1..] == rest == without[1..];
    if fills != [] {
      assert [c] + head + fills[0] + Weave(rest, fills[1..]) == [c] + (head + fills[0] + Weave(rest, fills[1..]));
    }
  }

  lemma {:induction false} GapGivesWay(parts: seq<Bytes>, s: Bytes)
    requires |parts| >= 1 && Woven([[]] + parts, s)
    ensures Woven(parts, s) || (s != [] && Woven([[]] + parts, s[1..]))
  {
    var open := [[]] + parts;
    assert open[1..] == parts;
    var fills :| WovenBy(open, s, fills);
    var tail := Weave(parts, fills[1..]);
    assert s == fills[0] + tail;
    if fills[0] == [] {
      assert WovenBy(parts, s, fills[1..]);
    } else {
      var less := [fills[0][1..]] + fills[1..];
      assert less[1..] == fills[1..] && s[1..] == fills[0][1..] + tail;
      assert WovenBy(open, s[1..], less);
    }
  }

  lemma {:induction false} GapTakes(parts: seq<Bytes>, s: Bytes)
    requires |parts| >= 1
    ensures Woven(parts, s) ==> Woven([[]] + parts, s)
    ensures s != [] && Woven([[]] + parts, s[1..]) ==> Woven([[]] + parts, s)
  {
    var open := [[]] + parts;
    assert open[1..] == parts;
    if Woven(parts, s) {
      var fills :| WovenBy(parts, s, fills);
      assert ([[]] + fills)[1..] == fills;
      assert WovenBy(open, s, [[]] + fills);
    }
    if s != [] && Woven(open, s[1..]) {
      var fills :| WovenBy(open, s[1..], fills);
      var more := [[s[0]] + fills[0]] + fills[1..];
      assert more[1..] == fills[1..];
      assert s == [s[0]] + s[1..] == [] + more[0] + Weave(parts, more[1..]);
      assert WovenBy(open, s, more);
    }
  }

  lemma SplitLiteral(p: Bytes)
    requires p != [] && p[0] != STAR
    ensures var parts := Split(p[1..], STAR); Split(p, STAR) == [[p[0]] + parts[0]] + parts[1..]
  {
  }

  /** Reading byte by byte is what the glob means. */
  lemma {:induction false} ReadsIsGlob(p: Bytes, s: Bytes)
    ensures Reads(p, s) <==> SegmentGlob(p, s)
    decreases |p| + |s|
  {
    if p == [] {
      NoGap([], s);
      assert Split(p, STAR) == [[]];
    } else if p[0] != STAR {
      var parts := Split(p[1..], STAR);
      SplitLiteral(p);
      WovenLiteral(p[0], parts[0], parts[1..], s);
      assert [parts[0]] + parts[1..] == parts;
      if s != [] { ReadsIsGlob(p[1..], s[1..]); }
    } else {
      assert Split(p, STAR) == [[]] + Split(p[1..], STAR);
      GapTakes(Split(p[1..], STAR), s);
      if SegmentGlob(p, s) { GapGivesWay(Split(p[1..], STAR), s); }
      ReadsIsGlob(p[1..], s);
      if s != [] { ReadsIsGlob(p, s[1..]); }
    }
  }

  // ---------------------------------------------------------------- runs of stars

  /** p without its leading stars. */
  function Strip(p: Bytes): (q: Bytes)
    ensures |q| <= |p| && (p != [] && p[0] == STAR ==> |q| < |p|) && (q != [] ==> q[0] != STAR)
  {
    if p != [] && p[0] == STAR then Strip(p[1..]) else p
  }

  /** p with every run of stars read as one star. */
  function Collapse(p: Bytes): Bytes
    decreases |p|
  {
    if p == [] then []
    else if p[0] == STAR then [STAR] + Collapse(Strip(p))
    else [p[0]] + Collapse(p[1..])
  }

  lemma {:induction false} DoubleStar(p: Bytes, s: Bytes)
    requires |p| >= 2 && p[0] == STAR && p[1] == STAR
    ensures Reads(p, s) <==> Reads(p[1..], s)
  {
    if s != [] { DoubleStar(p, s[1..]); }
  }

  lemma {:induction false} LeadingStars(p: Bytes, s: Bytes)
    requires p != [] && p[0] == STAR
    ensures Reads(p, s) <==> Reads([STAR] + Strip(p), s)
  {
    if |p| >= 2 && p[1] == STAR {
      DoubleStar(p, s);
      LeadingStars(p[1..], s);
    } else {
      assert Strip(p) == p[1..] && p == [STAR] + p[1..];
    }
  }

  lemma {:induction false} SameAfterStar(a: Bytes, b: Bytes, s: Bytes)
    requires forall t: Bytes | |t| <= |s| :: Reads(a, t) <==> Reads(b, t)
    ensures Reads([STAR] + a, s) <==> Reads([STAR] + b, s)
  {
    assert ([STAR] + a)[1..] == a && ([STAR] + b)[1..] == b;
    if s != [] { SameAfterStar(a, b, s[1..]); }
  }

  /** Collapsing changes nothing about what is matched. */
  lemma {:induction false} CollapseReads(p: Bytes, s: Bytes)
    ensures Reads(p, s) <==> Reads(Collapse(p), s)
    decreases |p|, |s|
  {
    if p != [] {
      if p[0] == STAR {
        LeadingStars(p, s);
        var q := Strip(p);
        forall t: Bytes | |t| <= |s| ensures Reads(q, t) <==> Reads(Collapse(q), t) { CollapseReads(q, t); }
        SameAfterStar(q, Collapse(q), s);
      } else {
        assert Collapse(p)[1..] == Collapse(p[1..]);
        if s != [] { CollapseReads(p[1..], s[1..]); }
      }
    }
  }

  // ---------------------------------------------------------------- patterns that match each other

  /** The bytes that are not stars. */
  function Literals(p: Bytes): nat {
    if p == [] then 0 else Literals(p[1..]) + if p[0] == STAR then 0 else 1
  }

  lemma {:induction false} ReadsNeedsLiterals(p: Bytes, s: Bytes)
    requires Reads(p, s)
    ensures Literals(p) <= Literals(s)
    decreases |p| + |s|
  {
    if p != [] {
      if p[0] != STAR {
        ReadsNeedsLiterals(p[1..], s[1..]);
      } else if Reads(p[1..], s) {
        ReadsNeedsLiterals(p[1..], s);
      } else {
        ReadsNeedsLiterals(p, s[1..]);
      }
    }
  }

  /** Reading a pattern's own text with stars taking stars only. */
  predicate StarReads(p: Bytes, s: Bytes)
    decreases |p| + |s|
  {
    if p == [] then s == []
    else if p[0] != STAR then s != [] && s[0] == p[0] && StarReads(p[1..], s[1..])
    else StarReads(p[1..], s) || (s != [] && s[0] == STAR && StarReads(p, s[1..]))
  }

  /** With as many literals on both sides, no star can take a literal. */
  lemma {:induction false} NoLiteralSpared(p: Bytes, s: Bytes)
    requires Reads(p, s) && Literals(p) == Literals(s)
    ensures StarReads(p, s)
    decreases |p| + |s|
  {
    if p != [] {
      if p[0] != STAR {
        NoLiteralSpared(p[1..], s[1..]);
      } else if Reads(p[1..], s) {
        NoLiteralSpared(p[1..], s);
      } else {
        ReadsNeedsLiterals(p, s[1..]);
        NoLiteralSpared(p, s[1..]);
      }
    }
  }

  lemma {:induction false} StripReads(p: Bytes, q: Bytes)
    requires StarReads(p, q)
    ensures StarReads(Strip(p), Strip(q))
    decreases |p| + |q|
  {
    if p != [] && p[0] == STAR {
      if StarReads(p[1..], q) { StripReads(p[1..], q); } else { StripReads(p, q[1..]); }
    }
  }

  lemma {:induction false} SameStars(p: Bytes, q: Bytes)
    requires StarReads(p, q) && StarReads(q, p)
    ensures Collapse(p) == Collapse(q)
    decreases |p| + |q|
  {
    if p != [] && q != [] {
      if p[0] == STAR {
        StripReads(p, q);
        StripReads(q, p);
        SameStars(Strip(p), Strip(q));
      } else {
        SameStars(p[1..], q[1..]);
      }
    }
  }

  /** Two patterns that match each other's text are one up to runs of stars. */
  lemma {:induction false} MutualMatch(p: Bytes, q: Bytes)
    requires SegmentGlob(p, q) && SegmentGlob(q, p)
    ensures Collapse(p) == Collapse(q)
  {
    ReadsIsGlob(p, q);
    ReadsIsGlob(q, p);
    ReadsNeedsLiterals(p, q);
    ReadsNeedsLiterals(q, p);
    NoLiteralSpared(p, q);
    NoLiteralSpared(q, p);
    SameStars(p, q);
  }

  lemma {:induction false} SameCollapseSameTexts(p: Bytes, q: Bytes, s: Bytes)
    requires Collapse(p) == Collapse(q) && SegmentGlob(p, s)
    ensures SegmentGlob(q, s)
  {
    ReadsIsGlob(p, s);
    CollapseReads(p, s);
    CollapseReads(q, s);
    ReadsIsGlob(q, s);
  }

  // ---------------------------------------------------------------- paths

  /** The same canonical paths match. */
  ghost predicate SameLanguage(g: Bytes, h: Bytes) {
    forall path | Canonical(path) :: PathGlob(g, path) <==> PathGlob(h, path)
  }

  /** Equal, segment by segment, up to runs of stars. */
  predicate SameGlob(g: Bytes, h: Bytes) {
    var x, y := Segments(g), Segments(h);
    |x| == |y| && forall i | 0 <= i < |x| :: Collapse(x[i]) == Collapse(y[i])
  }

  lemma GlobMatchesItself(g: Bytes)
    ensures PathGlob(g, g)
  {
    forall i | 0 <= i < |Segments(g)| ensures SegmentGlob(Segments(g)[i], Segments(g)[i]) {
      EqualSegment(Segments(g)[i]);
    }
  }

  // ---------------------------------------------------------------- one glob inside others

  /** A glob that matches another glob's text matches all that the other does. */
  lemma {:induction false} ReadsTransitive(h: Bytes, g: Bytes, s: Bytes)
    requires Reads(h, g) && Reads(g, s)
    ensures Reads(h, s)
    decreases |h| + |g| + |s|
  {
    if h != [] {
      if h[0] == STAR && Reads(h[1..], g) {
        ReadsTransitive(h[1..], g, s);
      } else if g[0] == STAR && Reads(g[1..], s) {
        ReadsTransitive(h, g[1..], s);
      } else if g[0] == STAR {
        ReadsTransitive(h, g, s[1..]);
      } else if h[0] == STAR {
        ReadsTransitive(h, g[1..], s[1..]);
      } else {
        ReadsTransitive(h[1..], g[1..], s[1..]);
      }
    }
  }

  lemma {:induction false} GlobTransitive(h: Bytes, g: Bytes, path: Bytes)
    requires PathGlob(h, g) && PathGlob(g, path)
    ensures PathGlob(h, path)
  {
    hide SegmentGlob, Segments, Reads;
    var hs, gs, ss := Segments(h), Segments(g), Segments(path);
    forall i | 0 <= i < |hs| ensures SegmentGlob(hs[i], ss[i]) {
      ReadsIsGlob(hs[i], gs[i]);
      ReadsIsGlob(gs[i], ss[i]);
      ReadsIsGlob(hs[i], ss[i]);
      ReadsTransitive(hs[i], gs[i], ss[i]);
    }
  }

  /**
    What a canonical glob matches lies in what several globs match together exactly when one of them
    matches its text: no glob is covered by others only jointly.
   */
  lemma {:induction false} CoveredByGlobsIs(g: Bytes, hs: seq<Bytes>)
    requires Canonical(g)
    ensures (forall path | Canonical(path) && PathGlob(g, path) ::
               exists k :: 0 <= k < |hs| && PathGlob(hs[k], path)) <==>
            exists k :: 0 <= k < |hs| && PathGlob(hs[k], g)
  {
    GlobMatchesItself(g);
    hide PathGlob, Canonical;
    if k :| 0 <= k < |hs| && PathGlob(hs[k], g) {
      forall path | Canonical(path) && PathGlob(g, path) ensures PathGlob(hs[k], path) {
        GlobTransitive(hs[k], g, path);
      }
    }
  }

  lemma {:induction false} SameGlobMatches(g: Bytes, h: Bytes, path: Bytes)
    requires SameGlob(g, h) && PathGlob(g, path)
    ensures PathGlob(h, path)
  {
    hide SegmentGlob, Collapse, Segments;
    var x, y, z := Segments(g), Segments(h), Segments(path);
    forall i | 0 <= i < |y| ensures SegmentGlob(y[i], z[i]) { SameCollapseSameTexts(x[i], y[i], z[i]); }
  }

  /** Which globs match the same paths can be read off their texts. */
  lemma {:induction false} SameLanguageIs(g: Bytes, h: Bytes)
    requires Canonical(g) && Canonical(h)
    ensures SameLanguage(g, h) <==> SameGlob(g, h)
  {
    hide SegmentGlob, Collapse, Segments, Canonical;
    if SameLanguage(g, h) {
      GlobMatchesItself(g);
      GlobMatchesItself(h);
      assert PathGlob(h, g) && PathGlob(g, h);
      var x, y := Segments(g), Segments(h);
      forall i | 0 <= i < |x| ensures Collapse(x[i]) == Collapse(y[i]) { MutualMatch(x[i], y[i]); }
    }
    if SameGlob(g, h) {
      assert SameGlob(h, g);
      forall path | Canonical(path) ensures PathGlob(g, path) <==> PathGlob(h, path) {
        if PathGlob(g, path) { SameGlobMatches(g, h, path); }
        if PathGlob(h, path) { SameGlobMatches(h, g, path); }
      }
    }
  }

  lemma {:induction false} NothingToCollapse(p: Bytes)
    requires NoStarRuns(p)
    ensures Collapse(p) == p
  {
    if p != [] {
      assert forall i | 0 < i < |p[1..]| :: p[1..][i - 1] == p[i] && p[1..][i] == p[i + 1];
      NothingToCollapse(p[1..]);
      if p[0] == STAR { assert Strip(p) == p[1..]; }
    }
  }

  /** Without runs of stars a glob's language has one spelling. */
  lemma {:induction false} SameGlobWithoutRuns(g: Bytes, h: Bytes)
    requires [SLASH] <= g && [SLASH] <= h && NoStarRuns(g) && NoStarRuns(h) && SameGlob(g, h)
    ensures g == h
  {
    hide Collapse, Split;
    var x, y := Segments(g), Segments(h);
    assert g == [SLASH] + TrimPrefix(g, SLASH) && h == [SLASH] + TrimPrefix(h, SLASH);
    forall i | 0 <= i < |x| ensures x[i] == y[i] {
      PartsHaveNoRuns(TrimPrefix(g, SLASH), SLASH, i);
      PartsHaveNoRuns(TrimPrefix(h, SLASH), SLASH, i);
      NothingToCollapse(x[i]);
      NothingToCollapse(y[i]);
    }
    assert x == y;
    JoinSplit(TrimPrefix(g, SLASH), SLASH);
    JoinSplit(TrimPrefix(h, SLASH), SLASH);
  }
}
