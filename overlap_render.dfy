/**
 * The text display of docs/: each segment of the partition is rendered as
 * its text wrapped in one `mark` per covering annotation, narrowest
 * innermost, a symbol's mark beginning with an indicator node that shows its
 * glyph. A selection is mapped back to text offsets by walking the rendered
 * text nodes and skipping the indicators.
 */
module OverlapRender {
  import opened Js
  import opened Types
  import StableSort
  import Partition

  /** The rendered content of a segment: its text inside zero or more marks. */
  datatype Node = Plain(text: string) | Mark(ann: Annotation, indicator: Option<string>, child: Node)

  /** The indicator of a mark: the glyph of a symbol annotation; a highlight has none. */
  function Indicator(a: Annotation): (r: Option<string>)
    ensures r.Some? <==> a.kind == Symbol
    ensures r.Some? ==> ParseValue(r.value) == Some(a.value)
  {
    if a.kind == Symbol then
      ValueTextRoundTrip(a.value);
      Some(ValueText(a.value))
    else None
  }

  /** `inner` wrapped in the marks of `anns`, the first innermost and the last outermost. */
  function Nest(anns: seq<Annotation>, inner: Node): Node
  {
    if anns == [] then inner
    else Mark(anns[|anns| - 1], Indicator(anns[|anns| - 1]), Nest(anns[..|anns| - 1], inner))
  }

  /** Wrapping in list order puts the first annotation innermost and the last outermost. */
  lemma {:induction false} NestOrder(anns: seq<Annotation>, inner: Node)
    ensures MarksInsideOut(Nest(anns, inner)) == MarksInsideOut(inner) + anns
  {
    if anns != [] {
      var init := anns[..|anns| - 1];
      NestOrder(init, inner);
      assert anns == init + [anns[|anns| - 1]];
    }
  }

  /** The annotations of the marks around a node's text, innermost first. */
  function MarksInsideOut(n: Node): seq<Annotation>
  {
    match n
    case Plain(_) => []
    case Mark(a, _, c) => MarksInsideOut(c) + [a]
  }

  /**
   * The render's `forEach` that reassigns `segmentContent`: starting from the
   * segment text, each covering annotation in turn wraps what is there.
   */
  method WrapSegment(covering: seq<Annotation>, segmentText: string) returns (content: Node)
    ensures content == Nest(covering, Plain(segmentText))
  {
    content := Plain(segmentText);
    for i := 0 to |covering|
      invariant content == Nest(covering[..i], Plain(segmentText))
    {
      assert covering[..i + 1][..i] == covering[..i];
      content := Mark(covering[i], Indicator(covering[i]), content);
    }
    assert covering[..|covering|] == covering;
  }

  /** The content rendered for one segment. */
  function SegmentContent(text: string, anns: seq<Annotation>, seg: Partition.Segment): Node
  {
    Nest(Partition.Covering(anns, seg), Plain(Substring(text, seg.start, seg.end)))
  }

  /** A segment's content, skipping indicators, shows exactly the segment's text. */
  lemma SegmentShowsText(text: string, anns: seq<Annotation>, seg: Partition.Segment)
    ensures LogicalText(Flatten(SegmentContent(text, anns, seg))) == Substring(text, seg.start, seg.end)
  {
    NestShowsText(Partition.Covering(anns, seg), Substring(text, seg.start, seg.end));
  }

  /**
   * In a segment's content the marks from the inside out are the covering
   * annotations, so they widen outwards: the narrowest is innermost.
   */
  lemma NarrowestInnermost(text: string, anns: seq<Annotation>, seg: Partition.Segment)
    ensures MarksInsideOut(SegmentContent(text, anns, seg)) == Partition.Covering(anns, seg)
    ensures StableSort.SortedBy(MarksInsideOut(SegmentContent(text, anns, seg)), Partition.LengthOf)
    ensures forall a :: a in MarksInsideOut(SegmentContent(text, anns, seg)) <==>
                          a in anns && a.start < seg.end && a.end > seg.start
  {
    Partition.CoveringSpec(anns, seg);
    NestOrder(Partition.Covering(anns, seg), Plain(Substring(text, seg.start, seg.end)));
  }

  /** The contents of the given segments, in order. */
  function RenderSegments(text: string, anns: seq<Annotation>, segs: seq<Partition.Segment>): (r: seq<Node>)
    ensures |r| == |segs|
  {
    if segs == [] then [] else [SegmentContent(text, anns, segs[0])] + RenderSegments(text, anns, segs[1..])
  }

  /** `renderedContent`: nothing for an empty text, otherwise one content per segment. */
  function Render(text: string, anns: seq<Annotation>): (r: seq<Node>)
    ensures r == [] <==> text == ""
  {
    if text == "" then []
    else
      var p := Partition.Breakpoints(|text|, anns);
      Partition.BreakpointsSpec(|text|, anns);
      Partition.SegmentsOfIncreasing(p);
      assert |p| >= 2 by {
        var i :| 0 <= i < |p| && p[i] == 0;
        var j :| 0 <= j < |p| && p[j] == |text|;
        assert i != j;
      }
      RenderSegments(text, anns, Partition.Segments(p))
  }

  /**
   * `renderedContent` step by step: the breakpoints collected into an
   * insertion-ordered set, sorted, paired into segments, and each segment
   * wrapped in its covering marks.
   */
  method RenderedContent(text: string, anns: seq<Annotation>) returns (nodes: seq<Node>)
    ensures nodes == Render(text, anns)
  {
    if text == "" {
      return [];
    }
    var points := Partition.CollectBreakpoints(|text|, anns);
    var sorted := StableSort.SortBy(points, Partition.Id);
    assert sorted == Partition.Breakpoints(|text|, anns);
    nodes := WrapSegments(text, anns, Partition.Segments(sorted));
  }

  /**
   * The render's `map` over the segments, wrapping each in turn: the nodes
   * built so far followed by the contents of the segments still to come are
   * the whole render.
   */
  method WrapSegments(text: string, anns: seq<Annotation>, segs: seq<Partition.Segment>) returns (nodes: seq<Node>)
    ensures nodes == RenderSegments(text, anns, segs)
  {
    nodes := [];
    for i := 0 to |segs|
      invariant nodes + RenderSegments(text, anns, segs[i..]) == RenderSegments(text, anns, segs)
    {
      var seg := segs[i];
      var content := WrapSegment(Partition.Covering(anns, seg), Substring(text, seg.start, seg.end));
      assert segs[i..][1..] == segs[i + 1..];
      assert RenderSegments(text, anns, segs[i..]) == [content] + RenderSegments(text, anns, segs[i + 1..]);
      nodes := nodes + [content];
    }
  }

  /** A DOM text node under the text container, and whether it lies in a symbol indicator. */
  datatype TextNode = TextNode(text: string, indicator: bool)

  /** The text nodes of a rendered content, in document order. */
  function Flatten(n: Node): (r: seq<TextNode>)
    ensures r != [] && !r[|r| - 1].indicator
    ensures forall k :: 0 <= k < |r| - 1 ==> r[k].indicator
  {
    match n
    case Plain(t) => [TextNode(t, false)]
    case Mark(_, ind, c) => (if ind.Some? then [TextNode(ind.value, true)] else []) + Flatten(c)
  }

  /** The text nodes of all rendered contents, in document order. */
  function FlattenAll(ns: seq<Node>): seq<TextNode>
  {
    if ns == [] then [] else Flatten(ns[0]) + FlattenAll(ns[1..])
  }

  /** The text a reader selects from: the text nodes outside indicators, joined. */
  function LogicalText(ts: seq<TextNode>): string
  {
    if ts == [] then ""
    else LogicalText(ts[..|ts| - 1]) + (if ts[|ts| - 1].indicator then "" else ts[|ts| - 1].text)
  }

  lemma {:induction false} LogicalTextConcat(a: seq<TextNode>, b: seq<TextNode>)
    ensures LogicalText(a + b) == LogicalText(a) + LogicalText(b)
  {
    if b == [] {
      assert a + b == a;
    } else {
      var init, last := b[..|b| - 1], b[|b| - 1];
      var tail := if last.indicator then "" else last.text;
      assert (a + b)[..|a + b| - 1] == a + init && (a + b)[|a + b| - 1] == last;
      calc {
        LogicalText(a + b);
        LogicalText(a + init) + tail;
        { LogicalTextConcat(a, init); }
        (LogicalText(a) + LogicalText(init)) + tail;
        LogicalText(a) + (LogicalText(init) + tail);
        LogicalText(a) + LogicalText(b);
      }
    }
  }

  /** Marks and indicators add nothing to the text a segment shows. */
  lemma {:induction false} NestShowsText(anns: seq<Annotation>, t: string)
    ensures LogicalText(Flatten(Nest(anns, Plain(t)))) == t
  {
    if anns == [] {
      assert [TextNode(t, false)][..0] == [];
    } else {
      var inner := Nest(anns[..|anns| - 1], Plain(t));
      NestShowsText(anns[..|anns| - 1], t);
      var ind := Indicator(anns[|anns| - 1]);
      var head: seq<TextNode> := if ind.Some? then [TextNode(ind.value, true)] else [];
      LogicalTextConcat(head, Flatten(inner));
      if ind.Some? {
        assert head[..0] == [];
      }
    }
  }

  lemma {:induction false} SegmentsShowText(text: string, anns: seq<Annotation>, segs: seq<Partition.Segment>)
    ensures LogicalText(FlattenAll(RenderSegments(text, anns, segs))) == Partition.Joined(text, segs)
  {
    if segs != [] {
      var r := RenderSegments(text, anns, segs);
      assert r[0] == SegmentContent(text, anns, segs[0]) && r[1..] == RenderSegments(text, anns, segs[1..]);
      LogicalTextConcat(Flatten(r[0]), FlattenAll(r[1..]));
      SegmentShowsText(text, anns, segs[0]);
      SegmentsShowText(text, anns, segs[1..]);
    }
  }

  /**
   * When every annotation lies inside the text, the text nodes of the
   * render, skipping indicators, spell the text exactly; an empty text
   * renders nothing.
   */
  lemma RenderShowsText(text: string, anns: seq<Annotation>)
    requires Partition.InText(|text|, anns)
    ensures LogicalText(FlattenAll(Render(text, anns))) == text
    ensures text == "" <==> Render(text, anns) == []
  {
    if text != "" {
      var segs := Partition.Segments(Partition.Breakpoints(|text|, anns));
      SegmentsShowText(text, anns, segs);
      Partition.SegmentsCoverText(text, anns);
      Partition.BreakpointsSpec(|text|, anns);
      Partition.SegmentsOfIncreasing(Partition.Breakpoints(|text|, anns));
    }
  }

  /**
   * The offset `getOffset` computes for a boundary at character
   * `boundaryOffset` of node number `boundary`: the length of the text
   * outside indicators before that node, plus `boundaryOffset` unless the
   * node is an indicator. A boundary that is no walked text node (an index
   * outside the list) yields the whole length.
   */
  function OffsetOf(nodes: seq<TextNode>, boundary: int, boundaryOffset: int): (r: int)
    ensures 0 <= boundaryOffset ==> 0 <= r
    ensures (0 <= boundary < |nodes| && !nodes[boundary].indicator ==> boundaryOffset <= |nodes[boundary].text|)
            ==> r <= |LogicalText(nodes)|
  {
    if 0 <= boundary < |nodes| then
      var k := boundary;
      assert nodes == nodes[..k] + [nodes[k]] + nodes[k + 1..];
      LogicalTextConcat(nodes[..k] + [nodes[k]], nodes[k + 1..]);
      LogicalTextConcat(nodes[..k], [nodes[k]]);
      assert [nodes[k]][..0] == [];
      |LogicalText(nodes[..k])| + if nodes[k].indicator then 0 else boundaryOffset
    else |LogicalText(nodes)|
  }

  /** `getOffset`: the tree walk over the text nodes, accumulating lengths outside indicators. */
  method GetOffset(nodes: seq<TextNode>, boundary: int, boundaryOffset: int) returns (offset: int)
    ensures offset == OffsetOf(nodes, boundary, boundaryOffset)
  {
    offset := 0;
    var i := 0;
    assert nodes[..0] == [];
    while i < |nodes|
      invariant 0 <= i <= |nodes|
      invariant offset == |LogicalText(nodes[..i])|
      invariant !(0 <= boundary < i)
    {
      if i == boundary {
        if !nodes[i].indicator {
          offset := offset + boundaryOffset;
        }
        return;
      }
      assert nodes[..i + 1][..i] == nodes[..i];
      if !nodes[i].indicator {
        offset := offset + |nodes[i].text|;
      }
      i := i + 1;
    }
    assert nodes[..i] == nodes;
  }

  /**
   * The offset of a boundary inside a text node outside the indicators is its
   * position in the text the nodes spell: what precedes it there is the text
   * of the earlier nodes and the first `boundaryOffset` characters of its own.
   */
  lemma OffsetLocatesBoundary(nodes: seq<TextNode>, k: int, boundaryOffset: int)
    requires 0 <= k < |nodes| && !nodes[k].indicator
    requires 0 <= boundaryOffset <= |nodes[k].text|
    ensures OffsetOf(nodes, k, boundaryOffset) <= |LogicalText(nodes)|
    ensures LogicalText(nodes)[..OffsetOf(nodes, k, boundaryOffset)] == LogicalText(nodes[..k]) + nodes[k].text[..boundaryOffset]
  {
    assert nodes == nodes[..k] + [nodes[k]] + nodes[k + 1..];
    LogicalTextConcat(nodes[..k] + [nodes[k]], nodes[k + 1..]);
    LogicalTextConcat(nodes[..k], [nodes[k]]);
    assert [nodes[k]][..0] == [];
  }

  /** What `handleMouseUp` does: nothing at all, or report a selection or `null`. */
  datatype MouseUpReport = Silent | Reported(range: Option<SelectionRange>)

  /**
   * The outcome of `handleMouseUp` from its inputs: while a connection is
   * pending it reports nothing; otherwise it reports the range only for a
   * non-collapsed selection inside the text whose start offset is below its
   * end offset, and `null` in every other case.
   */
  function MouseUpOutcome(isConnecting: bool, hasSelection: bool, inside: bool, start: int, end: int): (r: MouseUpReport)
    ensures r.Silent? <==> isConnecting
    ensures r.Reported? && r.range.Some? <==> !isConnecting && hasSelection && inside && start < end
    ensures r.Reported? && r.range.Some? ==> r.range.value == SelectionRange(start, end) && SelectionActive(r.range)
  {
    if isConnecting then Silent
    else if hasSelection && inside && start < end then Reported(Some(SelectionRange(start, end)))
    else Reported(None)
  }

  /**
   * `handleMouseUp` with the selection's two boundaries given as text-node
   * indices and character offsets into the rendered nodes.
   */
  method HandleMouseUp(isConnecting: bool, hasSelection: bool, inside: bool, nodes: seq<TextNode>,
                       startNode: int, startOffset: int, endNode: int, endOffset: int) returns (r: MouseUpReport)
    ensures r == MouseUpOutcome(isConnecting, hasSelection, inside,
                                OffsetOf(nodes, startNode, startOffset), OffsetOf(nodes, endNode, endOffset))
  {
    if isConnecting {
      return Silent;
    }
    if !hasSelection || !inside {
      return Reported(None);
    }
    var start := GetOffset(nodes, startNode, startOffset);
    var end := GetOffset(nodes, endNode, endOffset);
    if start < end {
      r := Reported(Some(SelectionRange(start, end)));
    } else {
      r := Reported(None);
    }
  }
}
