/**
 * The list transforms both editors apply to their annotation list: add from
 * a selection (keeping the list sorted by `start`, and in the simple editor
 * refusing overlaps), update a note, delete by id. Each is a pure function of
 * the old list; the two session classes assign their results.
 */
module SpanStore {
  import opened Js
  import opened Types
  import Seqs
  import StableSort

  /** The sort key of both editors: `(a, b) => a.start - b.start`. */
  function StartOf(a: Annotation): int
  {
    a.start
  }

  ghost predicate SortedByStart(anns: seq<Annotation>)
  {
    StableSort.SortedBy(anns, StartOf)
  }

  /** The load path's `annotations.sort((a, b) => a.start - b.start)`. */
  function SortByStart(anns: seq<Annotation>): (r: seq<Annotation>)
    ensures |r| == |anns|
  {
    StableSort.SortBy(anns, StartOf)
  }

  /**
   * `SortByStart` returns a permutation of its input ordered by `start`,
   * which is its input when that is already ordered.
   */
  lemma SortByStartSpec(anns: seq<Annotation>)
    ensures SortedByStart(SortByStart(anns))
    ensures multiset(SortByStart(anns)) == multiset(anns)
    ensures SortedByStart(anns) ==> SortByStart(anns) == anns
  {
    StableSort.SortBySorted(anns, StartOf);
    StableSort.SortByPermutes(anns, StartOf);
    if SortedByStart(anns) {
      StableSort.SortByOfSorted(anns, StartOf);
    }
  }

  /**
   * The annotation `handleAddAnnotation` builds from a selection: the span of
   * the selection, the text under it taken with `substring`, and an empty note.
   */
  function NewAnnotation(text: string, sel: SelectionRange, kind: AnnotationType, value: AnnotationValue, id: string): (a: Annotation)
    ensures a.id == id && a.kind == kind && a.value == value && a.note == ""
    ensures a.start == sel.start && a.end == sel.end
    ensures 0 <= sel.start <= sel.end <= |text| ==> a.text == text[sel.start..sel.end]
  {
    Annotation(id, sel.start, sel.end, Substring(text, sel.start, sel.end), kind, value, "")
  }

  /** `[...prev, a].sort((x, y) => x.start - y.start)`. */
  function WithAnnotation(anns: seq<Annotation>, a: Annotation): (r: seq<Annotation>)
    ensures |r| == |anns| + 1
  {
    SortByStart(anns + [a])
  }

  /**
   * The list after an add is sorted by `start` and holds the old annotations
   * and the new one, each as often as before.
   */
  lemma WithAnnotationSpec(anns: seq<Annotation>, a: Annotation)
    ensures SortedByStart(WithAnnotation(anns, a))
    ensures multiset(WithAnnotation(anns, a)) == multiset(anns) + multiset{a}
  {
    SortByStartSpec(anns + [a]);
  }

  /**
   * Into a list that is sorted by `start`, the add puts the new annotation
   * after every annotation starting at or before it and before the others;
   * nothing else moves.
   */
  lemma WithAnnotationPosition(anns: seq<Annotation>, a: Annotation) returns (k: nat)
    requires SortedByStart(anns)
    ensures k <= |anns|
    ensures WithAnnotation(anns, a) == anns[..k] + [a] + anns[k..]
    ensures forall i :: 0 <= i < k ==> anns[i].start <= a.start
    ensures forall i :: k <= i < |anns| ==> a.start < anns[i].start
  {
    StableSort.SortByAppend(anns, a, StartOf);
    StableSort.SortByOfSorted(anns, StartOf);
    k := StableSort.InsertByPosition(anns, a, StartOf);
  }

  /** Position `k` lies inside the span of `a`. */
  predicate Spans(a: Annotation, k: int)
  {
    a.start <= k < a.end
  }

  /**
   * The intersection test of the simple editor: `start < ann.end && end >
   * ann.start`. Two spans sharing a position intersect; and two non-empty
   * spans that intersect share the later of their starts.
   */
  function Overlaps(a: Annotation, b: Annotation): (r: bool)
    ensures forall k :: Spans(a, k) && Spans(b, k) ==> r
    ensures r && a.start < a.end && b.start < b.end ==>
              var k := if a.start < b.start then b.start else a.start;
              Spans(a, k) && Spans(b, k)
  {
    a.start < b.end && a.end > b.start
  }

  /** `annotations.some(ann => Overlaps(a, ann))`. */
  predicate OverlapsAny(anns: seq<Annotation>, a: Annotation)
  {
    exists i :: 0 <= i < |anns| && Overlaps(a, anns[i])
  }

  /** No two annotations of the list intersect. */
  ghost predicate NonOverlapping(anns: seq<Annotation>)
  {
    forall i, j :: 0 <= i < j < |anns| ==> !Overlaps(anns[i], anns[j])
  }

  /**
   * The simple editor's add: refused (`None`) exactly when the new span
   * intersects an existing annotation; otherwise the list with the new
   * annotation sorted in.
   */
  function AddDisjoint(anns: seq<Annotation>, a: Annotation): (r: Option<seq<Annotation>>)
    ensures r.None? <==> exists i :: 0 <= i < |anns| && anns[i].start < a.end && a.start < anns[i].end
    ensures r.Some? ==> |r.value| == |anns| + 1 && a in r.value
    ensures r.Some? ==> multiset(r.value) == multiset(anns) + multiset{a} && SortedByStart(r.value)
  {
    if OverlapsAny(anns, a) then None
    else
      WithAnnotationSpec(anns, a);
      assert a in multiset(WithAnnotation(anns, a));
      Some(WithAnnotation(anns, a))
  }

  lemma {:induction false} InsertKeepsNonOverlapping(u: seq<Annotation>, a: Annotation, v: seq<Annotation>)
    requires NonOverlapping(u + v)
    requires forall i :: 0 <= i < |u + v| ==> !Overlaps(a, (u + v)[i])
    ensures NonOverlapping(u + [a] + v)
  {
    var w, s := u + v, u + [a] + v;
    forall i, j | 0 <= i < j < |s| ensures !Overlaps(s[i], s[j]) {
      if i == |u| {
        assert s[j] == w[j - 1];
      } else if j == |u| {
        assert s[i] == w[i];
      } else {
        var i', j' := if i < |u| then i else i - 1, if j < |u| then j else j - 1;
        assert s[i] == w[i'] && s[j] == w[j'];
      }
    }
  }

  /**
   * The simple editor's invariant: a list sorted by `start` whose
   * annotations pairwise do not intersect stays so after an add that
   * was not refused.
   */
  lemma AddDisjointKeepsInvariant(anns: seq<Annotation>, a: Annotation)
    requires SortedByStart(anns) && NonOverlapping(anns)
    requires AddDisjoint(anns, a).Some?
    ensures SortedByStart(AddDisjoint(anns, a).value)
    ensures NonOverlapping(AddDisjoint(anns, a).value)
  {
    assert AddDisjoint(anns, a) == Some(WithAnnotation(anns, a));
    var k := WithAnnotationPosition(anns, a);
    assert anns[..k] + anns[k..] == anns;
    InsertKeepsNonOverlapping(anns[..k], a, anns[k..]);
  }

  /** `prev.map(ann => ann.id === id ? { ...ann, note } : ann)`. */
  function UpdateNote(anns: seq<Annotation>, id: string, note: string): (r: seq<Annotation>)
    ensures |r| == |anns|
    ensures forall i :: 0 <= i < |r| ==> r[i].(note := anns[i].note) == anns[i]
    ensures forall i :: 0 <= i < |r| ==> r[i].note == if anns[i].id == id then note else anns[i].note
    ensures SortedByStart(anns) ==> SortedByStart(r)
    ensures NonOverlapping(anns) ==> NonOverlapping(r)
  {
    seq(|anns|, i requires 0 <= i < |anns| => if anns[i].id == id then anns[i].(note := note) else anns[i])
  }

  /** `prev.filter(ann => ann.id !== id)`. */
  function RemoveAnnotation(anns: seq<Annotation>, id: string): (r: seq<Annotation>)
    ensures forall a :: a in r <==> a in anns && a.id != id
  {
    var keep := (a: Annotation) => a.id != id;
    Seqs.FilterMembers(anns, keep);
    Seqs.Filter(anns, keep)
  }

  /**
   * Deleting keeps the survivors in their order, so both the order by
   * `start` and the absence of intersections survive it; deleting an id no
   * annotation has changes nothing.
   */
  lemma RemoveAnnotationSpec(anns: seq<Annotation>, id: string)
    ensures SortedByStart(anns) ==> SortedByStart(RemoveAnnotation(anns, id))
    ensures NonOverlapping(anns) ==> NonOverlapping(RemoveAnnotation(anns, id))
    ensures (forall a :: a in anns ==> a.id != id) ==> RemoveAnnotation(anns, id) == anns
  {
    var keep := (a: Annotation) => a.id != id;
    var inOrder := (a: Annotation, b: Annotation) => a.start <= b.start;
    var apart := (a: Annotation, b: Annotation) => !Overlaps(a, b);
    if SortedByStart(anns) {
      assert Seqs.Pairwise(anns, inOrder);
      Seqs.FilterPairwise(anns, keep, inOrder);
    }
    if NonOverlapping(anns) {
      assert Seqs.Pairwise(anns, apart);
      Seqs.FilterPairwise(anns, keep, apart);
    }
    if forall a :: a in anns ==> a.id != id {
      Seqs.FilterAll(anns, keep);
    }
  }
}
