/**
 * How the text display of docs/ cuts the text into segments for
 * overlapping annotations: every annotation endpoint, with 0 and the text
 * length, becomes a breakpoint; consecutive breakpoints bound a segment; and
 * each segment is covered by the annotations that intersect it, narrowest
 * first.
 */
module Partition {
  import opened Types
  import Seqs
  import StableSort

  /**
   * The endpoints in the order the render adds them to its `Set`: 0, the
   * text length, then the start and end of each annotation in list order.
   */
  function Endpoints(len: nat, anns: seq<Annotation>): (r: seq<int>)
    ensures |r| == 2 + 2 * |anns|
  {
    if anns == [] then [0, len]
    else Endpoints(len, anns[..|anns| - 1]) + [anns[|anns| - 1].start, anns[|anns| - 1].end]
  }

  /** `x` is 0, the length, or an endpoint of an annotation. */
  predicate IsEndpoint(len: nat, anns: seq<Annotation>, x: int)
  {
    x == 0 || x == len || exists i :: 0 <= i < |anns| && (anns[i].start == x || anns[i].end == x)
  }

  lemma {:induction false} EndpointsMembers(len: nat, anns: seq<Annotation>)
    ensures forall x :: x in Endpoints(len, anns) <==> IsEndpoint(len, anns, x)
  {
    if anns != [] {
      var init := anns[..|anns| - 1];
      EndpointsMembers(len, init);
      forall x | IsEndpoint(len, anns, x) ensures x in Endpoints(len, anns) {
        if x != 0 && x != len {
          var i :| 0 <= i < |anns| && (anns[i].start == x || anns[i].end == x);
          if i < |init| {
            assert init[i] == anns[i];
            assert IsEndpoint(len, init, x);
          }
        }
      }
      forall x | x in Endpoints(len, anns) ensures IsEndpoint(len, anns, x) {
        if x in Endpoints(len, init) {
          assert IsEndpoint(len, init, x);
          if x != 0 && x != len {
            var i :| 0 <= i < |init| && (init[i].start == x || init[i].end == x);
            assert anns[i] == init[i];
          }
        }
      }
    }
  }

  /** The endpoints of one more annotation follow those of the ones before it. */
  lemma EndpointsStep(len: nat, anns: seq<Annotation>, i: int)
    requires 0 <= i < |anns|
    ensures Endpoints(len, anns[..i + 1]) == Endpoints(len, anns[..i]) + [anns[i].start] + [anns[i].end]
  {
    assert anns[..i + 1][..i] == anns[..i];
  }

  /** `breakpoints.add(x)`: `x` joins the set's order only if it is new. */
  method AddPoint(points: seq<int>, x: int) returns (points': seq<int>)
    ensures points' == if x in points then points else points + [x]
  {
    points' := points;
    if x !in points {
      points' := points + [x];
    }
  }

  /**
   * The render's `new Set([0, text.length])` followed by adding each
   * annotation's start and end: the distinct endpoints in first-occurrence
   * order.
   */
  method CollectBreakpoints(len: nat, anns: seq<Annotation>) returns (points: seq<int>)
    ensures points == Seqs.Dedup(Endpoints(len, anns))
  {
    Seqs.DedupSnoc([], 0);
    Seqs.DedupSnoc([0], len);
    assert [0] + [len] == [0, len];
    points := AddPoint([0], len);
    for i := 0 to |anns|
      invariant points == Seqs.Dedup(Endpoints(len, anns[..i]))
    {
      ghost var before := Endpoints(len, anns[..i]);
      EndpointsStep(len, anns, i);
      Seqs.DedupSnoc(before, anns[i].start);
      Seqs.DedupSnoc(before + [anns[i].start], anns[i].end);
      points := AddPoint(points, anns[i].start);
      points := AddPoint(points, anns[i].end);
    }
    assert anns[..|anns|] == anns;
  }

  /** The sort key `(a, b) => a - b`. */
  function Id(x: int): int
  {
    x
  }

  ghost predicate StrictlyIncreasing(s: seq<int>)
  {
    forall i, j :: 0 <= i < j < |s| ==> s[i] < s[j]
  }

  /** `Array.from(points).sort((a, b) => a - b)` over the collected breakpoints. */
  function Breakpoints(len: nat, anns: seq<Annotation>): (r: seq<int>)
    ensures 0 in r && len in r
    ensures |r| <= 2 + 2 * |anns|
  {
    var e := Endpoints(len, anns);
    var d := Seqs.Dedup(e);
    EndpointsMembers(len, anns);
    assert IsEndpoint(len, anns, 0) && IsEndpoint(len, anns, len);
    Seqs.DedupSpec(e);
    StableSort.SortByPermutes(d, Id);
    assert 0 in multiset(d) && len in multiset(d);
    StableSort.SortBy(d, Id)
  }

  lemma {:induction false} DistinctCount(s: seq<int>, x: int)
    requires Seqs.Distinct(s)
    ensures multiset(s)[x] <= 1
  {
    if s != [] {
      var init := s[..|s| - 1];
      assert s == init + [s[|s| - 1]];
      DistinctCount(init, x);
      if x == s[|s| - 1] {
        assert x !in init;
      }
    }
  }

  lemma RepeatCount(s: seq<int>, i: int, j: int)
    requires 0 <= i < j < |s| && s[i] == s[j]
    ensures multiset(s)[s[i]] >= 2
  {
    assert s == s[..j] + [s[j]] + s[j + 1..];
    assert s[i] in s[..j];
  }

  /**
   * The breakpoints increase strictly, and they are exactly 0, the text
   * length and the annotation endpoints.
   */
  lemma BreakpointsSpec(len: nat, anns: seq<Annotation>)
    ensures StrictlyIncreasing(Breakpoints(len, anns))
    ensures forall x :: x in Breakpoints(len, anns) <==> IsEndpoint(len, anns, x)
  {
    var d := Seqs.Dedup(Endpoints(len, anns));
    var p := Breakpoints(len, anns);
    Seqs.DedupSpec(Endpoints(len, anns));
    EndpointsMembers(len, anns);
    StableSort.SortBySorted(d, Id);
    StableSort.SortByPermutes(d, Id);
    forall i, j | 0 <= i < j < |p| ensures p[i] < p[j] {
      if p[i] == p[j] {
        RepeatCount(p, i, j);
        DistinctCount(d, p[i]);
        assert false;
      }
    }
    forall x ensures x in p <==> x in d {
      assert x in p <==> x in multiset(p);
    }
  }

  /** A piece of text between two consecutive breakpoints. */
  datatype Segment = Segment(start: int, end: int)

  /**
   * The render's `map` over consecutive breakpoints, keeping a pair only
   * when `start < end`.
   */
  function Segments(points: seq<int>): (r: seq<Segment>)
    ensures |r| <= if points == [] then 0 else |points| - 1
    ensures forall k :: 0 <= k < |r| ==> r[k].start < r[k].end
  {
    if |points| < 2 then []
    else (if points[0] < points[1] then [Segment(points[0], points[1])] else []) + Segments(points[1..])
  }

  /**
   * Over strictly increasing breakpoints every consecutive pair is a
   * segment: the segments are non-empty and contiguous, each ending where
   * the next starts.
   */
  lemma {:induction false} SegmentsOfIncreasing(points: seq<int>)
    requires StrictlyIncreasing(points)
    ensures |Segments(points)| == if points == [] then 0 else |points| - 1
    ensures forall i :: 0 <= i < |Segments(points)| ==> Segments(points)[i] == Segment(points[i], points[i + 1])
  {
    if |points| >= 2 {
      assert StrictlyIncreasing(points[1..]);
      SegmentsOfIncreasing(points[1..]);
    }
  }

  /** The texts of the segments, in order, joined. */
  function Joined(text: string, segs: seq<Segment>): (r: string)
    ensures forall c :: c in r ==> c in text
  {
    if segs == [] then ""
    else
      var piece := Js.Substring(text, segs[0].start, segs[0].end);
      assert forall c :: c in piece ==> c in text by {
        var a, b := Js.Clamp(segs[0].start, |text|), Js.Clamp(segs[0].end, |text|);
        assert piece == if a <= b then text[a..b] else text[b..a];
      }
      piece + Joined(text, segs[1..])
  }

  /**
   * The segments of strictly increasing breakpoints inside the text tile the
   * text from the first breakpoint to the last.
   */
  lemma {:induction false} SegmentsTile(text: string, points: seq<int>)
    requires StrictlyIncreasing(points) && points != []
    requires 0 <= points[0] && points[|points| - 1] <= |text|
    ensures Joined(text, Segments(points)) == text[points[0]..points[|points| - 1]]
  {
    if |points| >= 2 {
      var rest := points[1..];
      assert StrictlyIncreasing(rest);
      SegmentsTile(text, rest);
      var head := Segment(points[0], points[1]);
      var segs := [head] + Segments(rest);
      assert Segments(points) == segs;
      assert segs[0] == head && segs[1..] == Segments(rest);
      assert Joined(text, segs) == text[points[0]..points[1]] + Joined(text, Segments(rest));
      assert text[points[0]..points[|points| - 1]] == text[points[0]..points[1]] + text[points[1]..points[|points| - 1]];
    }
  }

  /** Every annotation lies inside the text. */
  predicate InText(len: nat, anns: seq<Annotation>)
  {
    forall i :: 0 <= i < |anns| ==> 0 <= anns[i].start <= len && 0 <= anns[i].end <= len
  }

  /**
   * When every annotation lies inside the text, the breakpoints run from 0 to
   * the text length and the segment texts joined are the whole text.
   */
  lemma SegmentsCoverText(text: string, anns: seq<Annotation>)
    requires InText(|text|, anns)
    ensures var p := Breakpoints(|text|, anns); p != [] && p[0] == 0 && p[|p| - 1] == |text|
    ensures Joined(text, Segments(Breakpoints(|text|, anns))) == text
  {
    var p := Breakpoints(|text|, anns);
    BreakpointsSpec(|text|, anns);
    assert IsEndpoint(|text|, anns, 0) && IsEndpoint(|text|, anns, |text|);
    assert forall x :: x in p ==> 0 <= x <= |text|;
    var k0 :| 0 <= k0 < |p| && p[k0] == 0;
    var kn :| 0 <= kn < |p| && p[kn] == |text|;
    assert p[0] <= p[k0] && p[kn] <= p[|p| - 1];
    assert p[0] in p && p[|p| - 1] in p;
    SegmentsTile(text, p);
  }

  /** The annotation span `[a.start, a.end)` is at least as long as its length says. */
  function LengthOf(a: Annotation): int
  {
    a.end - a.start
  }

  /** The covering test `ann.start < end && ann.end > start`. */
  function CoversSegment(seg: Segment): Annotation -> bool
  {
    (a: Annotation) => a.start < seg.end && a.end > seg.start
  }

  /**
   * The annotations covering a segment, sorted by ascending length (stable, so
   * equal lengths keep list order).
   */
  function Covering(anns: seq<Annotation>, seg: Segment): seq<Annotation>
  {
    StableSort.SortBy(Seqs.Filter(anns, CoversSegment(seg)), LengthOf)
  }

  /**
   * The covering list holds exactly the annotations that intersect the
   * segment, narrowest first, each no more often than in the list.
   */
  lemma CoveringSpec(anns: seq<Annotation>, seg: Segment)
    ensures forall a :: a in Covering(anns, seg) <==> a in anns && a.start < seg.end && a.end > seg.start
    ensures StableSort.SortedBy(Covering(anns, seg), LengthOf)
    ensures multiset(Covering(anns, seg)) <= multiset(anns)
  {
    var f := Seqs.Filter(anns, CoversSegment(seg));
    Seqs.FilterMembers(anns, CoversSegment(seg));
    Seqs.FilterSubMultiset(anns, CoversSegment(seg));
    StableSort.SortByPermutes(f, LengthOf);
    StableSort.SortBySorted(f, LengthOf);
    forall a ensures a in Covering(anns, seg) <==> a in f {
      assert a in Covering(anns, seg) <==> a in multiset(Covering(anns, seg));
    }
  }

  /**
   * Because every endpoint is a breakpoint, an annotation covering a segment
   * contains all of it.
   */
  lemma CoveringContainsSegment(len: nat, anns: seq<Annotation>, i: int, a: Annotation)
    requires 0 <= i < |Breakpoints(len, anns)| - 1
    requires a in Covering(anns, Segment(Breakpoints(len, anns)[i], Breakpoints(len, anns)[i + 1]))
    ensures a.start <= Breakpoints(len, anns)[i] && Breakpoints(len, anns)[i + 1] <= a.end
  {
    var p := Breakpoints(len, anns);
    CoveringSpec(anns, Segment(p[i], p[i + 1]));
    BreakpointsSpec(len, anns);
    var n :| 0 <= n < |anns| && anns[n] == a;
    assert IsEndpoint(len, anns, a.start) && IsEndpoint(len, anns, a.end);
    var ks :| 0 <= ks < |p| && p[ks] == a.start;
    var ke :| 0 <= ke < |p| && p[ke] == a.end;
  }
}
