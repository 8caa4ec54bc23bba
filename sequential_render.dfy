/**
 * The text display of the root editor, whose annotations do not intersect:
 * the text is cut into plain gaps and marks in one pass over the annotation
 * list, and a mark shows the text its annotation cached when it was made.
 */
module SequentialRender {
  import opened Js
  import opened Types
  import SpanStore

  /** A rendered part: a plain `span` of text, or the `mark` of an annotation. */
  datatype Piece = Gap(text: string) | Marked(ann: Annotation)

  /** The text a piece shows: a mark shows its annotation's cached `text`. */
  function PieceText(p: Piece): string
  {
    match p
    case Gap(t) => t
    case Marked(a) => a.text
  }

  /**
   * The parts for the remaining annotations once `lastIndex` is `last`: a gap
   * up to an annotation that starts after `last`, its mark, and on from its
   * end; after the last annotation, the rest of the text if any is left.
   */
  function PiecesFrom(text: string, anns: seq<Annotation>, last: int): seq<Piece>
  {
    if anns == [] then
      if last < |text| then [Gap(Substring(text, last, |text|))] else []
    else
      (if anns[0].start > last then [Gap(Substring(text, last, anns[0].start))] else [])
      + [Marked(anns[0])] + PiecesFrom(text, anns[1..], anns[0].end)
  }

  /** `renderedContent`: the bare text without annotations, the pieces otherwise. */
  function Rendered(text: string, anns: seq<Annotation>): seq<Piece>
  {
    if anns == [] then [Gap(text)] else PiecesFrom(text, anns, 0)
  }

  /** `renderedContent` as written: a `forEach` pushing into `parts` and advancing `lastIndex`. */
  method RenderParts(text: string, anns: seq<Annotation>) returns (parts: seq<Piece>)
    ensures parts == Rendered(text, anns)
  {
    if |anns| == 0 {
      return [Gap(text)];
    }
    parts := [];
    var last := 0;
    for i := 0 to |anns|
      invariant parts + PiecesFrom(text, anns[i..], last) == PiecesFrom(text, anns, 0)
    {
      var ann := anns[i];
      assert anns[i..][0] == ann && anns[i..][1..] == anns[i + 1..];
      var gap := if ann.start > last then [Gap(Substring(text, last, ann.start))] else [];
      assert PiecesFrom(text, anns[i..], last) == gap + [Marked(ann)] + PiecesFrom(text, anns[i + 1..], ann.end);
      if ann.start > last {
        parts := parts + [Gap(Substring(text, last, ann.start))];
      }
      parts := parts + [Marked(ann)];
      last := ann.end;
    }
    if last < |text| {
      parts := parts + [Gap(Substring(text, last, |text|))];
    }
  }

  /** The annotations whose marks appear among the pieces, in order. */
  function MarkedAnnotations(ps: seq<Piece>): seq<Annotation>
  {
    if ps == [] then []
    else (if ps[0].Marked? then [ps[0].ann] else []) + MarkedAnnotations(ps[1..])
  }

  lemma {:induction false} PiecesFromMarks(text: string, anns: seq<Annotation>, last: int)
    ensures MarkedAnnotations(PiecesFrom(text, anns, last)) == anns
  {
    if anns != [] {
      var gap := if anns[0].start > last then [Gap(Substring(text, last, anns[0].start))] else [];
      PiecesFromMarks(text, anns[1..], anns[0].end);
      MarkedAnnotationsConcat(gap + [Marked(anns[0])], PiecesFrom(text, anns[1..], anns[0].end));
      MarkedAnnotationsConcat(gap, [Marked(anns[0])]);
      assert [Marked(anns[0])][1..] == [];
    }
  }

  /** Every annotation gets exactly one mark, in list order, whatever the spans. */
  lemma RenderedMarks(text: string, anns: seq<Annotation>)
    ensures MarkedAnnotations(Rendered(text, anns)) == anns
  {
    if anns == [] {
      assert [Gap(text)][1..] == [];
    } else {
      PiecesFromMarks(text, anns, 0);
    }
  }

  lemma {:induction false} MarkedAnnotationsConcat(a: seq<Piece>, b: seq<Piece>)
    ensures MarkedAnnotations(a + b) == MarkedAnnotations(a) + MarkedAnnotations(b)
  {
    if a == [] {
      assert a + b == b;
    } else {
      assert (a + b)[0] == a[0] && (a + b)[1..] == a[1..] + b;
      MarkedAnnotationsConcat(a[1..], b);
    }
  }

  /** The texts of the pieces, joined. */
  function Joined(ps: seq<Piece>): string
  {
    if ps == [] then "" else PieceText(ps[0]) + Joined(ps[1..])
  }

  lemma {:induction false} JoinedConcat(a: seq<Piece>, b: seq<Piece>)
    ensures Joined(a + b) == Joined(a) + Joined(b)
  {
    if a == [] {
      assert a + b == b;
    } else {
      assert (a + b)[0] == a[0] && (a + b)[1..] == a[1..] + b;
      JoinedConcat(a[1..], b);
    }
  }

  /** Each annotation ends no later than the next one starts. */
  ghost predicate Chained(anns: seq<Annotation>)
  {
    forall i :: 0 <= i < |anns| - 1 ==> anns[i].end <= anns[i + 1].start
  }

  /** Every annotation is a non-empty span of the text and caches the text under it. */
  ghost predicate CachedSpans(text: string, anns: seq<Annotation>)
  {
    forall i :: 0 <= i < |anns| ==>
      0 <= anns[i].start < anns[i].end <= |text| && anns[i].text == text[anns[i].start..anns[i].end]
  }

  /** Sorted by `start` and pairwise apart, non-empty spans follow one another. */
  lemma DisjointIsChained(text: string, anns: seq<Annotation>)
    requires SpanStore.SortedByStart(anns) && SpanStore.NonOverlapping(anns)
    requires CachedSpans(text, anns)
    ensures Chained(anns)
  {
    forall i | 0 <= i < |anns| - 1 ensures anns[i].end <= anns[i + 1].start {
      assert SpanStore.StartOf(anns[i]) <= SpanStore.StartOf(anns[i + 1]);
      assert !SpanStore.Overlaps(anns[i], anns[i + 1]);
    }
  }

  /** The text of the pieces for a non-empty list: the gap, the first mark, then the rest. */
  lemma PiecesFromFirst(text: string, anns: seq<Annotation>, last: int)
    requires anns != []
    ensures Joined(PiecesFrom(text, anns, last)) ==
              (if anns[0].start > last then Substring(text, last, anns[0].start) else "")
              + anns[0].text + Joined(PiecesFrom(text, anns[1..], anns[0].end))
  {
    var a, rest := anns[0], PiecesFrom(text, anns[1..], anns[0].end);
    var gap := if a.start > last then [Gap(Substring(text, last, a.start))] else [];
    var g := if a.start > last then Substring(text, last, a.start) else "";
    assert Joined(gap) == g by {
      if a.start > last {
        assert Joined(gap) == g + Joined([]);
      }
    }
    assert Joined([Marked(a)]) == a.text by {
      assert Joined([Marked(a)]) == a.text + Joined([]);
    }
    calc {
      Joined(PiecesFrom(text, anns, last));
      Joined(gap + [Marked(a)] + rest);
      { JoinedConcat(gap + [Marked(a)], rest); }
      Joined(gap + [Marked(a)]) + Joined(rest);
      { JoinedConcat(gap, [Marked(a)]); }
      g + a.text + Joined(rest);
    }
  }

  /** The tail of a chained list of cached spans is one too, and starts after the head ends. */
  lemma ChainedTail(text: string, anns: seq<Annotation>)
    requires anns != [] && Chained(anns) && CachedSpans(text, anns)
    ensures Chained(anns[1..]) && CachedSpans(text, anns[1..])
    ensures anns[1..] != [] ==> anns[0].end <= anns[1..][0].start
    ensures 0 <= anns[0].start < anns[0].end <= |text| && anns[0].text == text[anns[0].start..anns[0].end]
  {
    var rest := anns[1..];
    forall i | 0 <= i < |rest| ensures rest[i] == anns[i + 1] { }
  }

  /** A gap from `last`, a mark caching its span, and the text after it spell `text[last..]`. */
  lemma GapMarkRest(text: string, last: int, a: Annotation)
    requires 0 <= last <= a.start < a.end <= |text|
    requires a.text == text[a.start..a.end]
    ensures (if a.start > last then Substring(text, last, a.start) else "") + a.text + text[a.end..] == text[last..]
  {
    assert text[last..] == text[last..a.start] + text[a.start..a.end] + text[a.end..];
  }

  lemma {:induction false} PiecesSpellText(text: string, anns: seq<Annotation>, last: int)
    requires Chained(anns) && CachedSpans(text, anns)
    requires 0 <= last <= |text|
    requires anns != [] ==> last <= anns[0].start
    ensures Joined(PiecesFrom(text, anns, last)) == text[last..]
  {
    if anns == [] {
      if last < |text| {
        assert Joined([Gap(text[last..])]) == text[last..] + Joined([]);
      }
    } else {
      ChainedTail(text, anns);
      PiecesSpellText(text, anns[1..], anns[0].end);
      PiecesFromFirst(text, anns, last);
      GapMarkRest(text, last, anns[0]);
    }
  }

  /**
   * For annotations sorted by `start`, pairwise apart, inside the text and
   * caching the text under them, the pieces spell the text exactly.
   */
  lemma RenderedSpellsText(text: string, anns: seq<Annotation>)
    requires SpanStore.SortedByStart(anns) && SpanStore.NonOverlapping(anns)
    requires CachedSpans(text, anns)
    ensures Joined(Rendered(text, anns)) == text
  {
    if anns == [] {
      assert Joined([Gap(text)]) == text + Joined([]);
    } else {
      DisjointIsChained(text, anns);
      PiecesSpellText(text, anns, 0);
    }
  }

  /**
   * `handleMouseUp` of the root editor: a range inside the text is reported
   * exactly when its two offsets differ; everything else reports `null`.
   */
  function MouseUpSelection(hasRange: bool, inside: bool, start: int, end: int): (r: Option<SelectionRange>)
    ensures r.Some? <==> hasRange && inside && start != end
    ensures r.Some? ==> r.value == SelectionRange(start, end) && SelectionActive(r)
  {
    if hasRange && inside && start != end then Some(SelectionRange(start, end)) else None
  }
}
