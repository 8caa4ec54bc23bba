/**
 * The session of the root editor: an uploaded file or a loaded session, the
 * text, annotations that must not intersect, the selection, the loading flag,
 * an error and the active annotation.
 */
module RootApp {
  import opened Js
  import opened Types
  import SpanStore
  import SessionFile

  /** A snapshot of every field of a `Session`. */
  datatype SessionState = SessionState(
    file: Option<string>,
    text: string,
    annotations: seq<Annotation>,
    selection: Option<SelectionRange>,
    isLoading: bool,
    error: Option<string>,
    activeId: Option<string>)

  /** The part of a file name before its first dot: `name.split('.')[0]`. */
  function BaseName(name: string): (r: string)
    ensures |r| <= |name| && r == name[..|r|]
    ensures '.' !in r
    ensures |r| < |name| ==> name[|r|] == '.'
  {
    if name == [] || name[0] == '.' then ""
    else name[..1] + BaseName(name[1..])
  }

  /** What every download name of this editor ends with. */
  const Suffix := "-annotations.json"

  /**
   * The name a save downloads under: the base name of the uploaded file, or
   * "annotations" when there is none or it is empty, then "-annotations.json".
   */
  function DownloadName(file: Option<string>): (r: string)
    ensures |r| >= |Suffix| && r[|r| - |Suffix|..] == Suffix
    ensures file.Some? && BaseName(file.value) != "" ==> r == BaseName(file.value) + Suffix
    ensures file.None? || BaseName(file.value) == "" ==> r == "annotations" + Suffix
  {
    var base := if file.Some? && BaseName(file.value) != "" then BaseName(file.value) else "annotations";
    assert (base + Suffix)[|base|..] == Suffix;
    base + Suffix
  }

  class Session {
    /** The name of the uploaded file, if one is being worked on. */
    var file: Option<string>
    var text: string
    var annotations: seq<Annotation>
    var selection: Option<SelectionRange>
    var isLoading: bool
    var error: Option<string>
    var activeId: Option<string>

    function State(): SessionState
      reads this
    {
      SessionState(file, text, annotations, selection, isLoading, error, activeId)
    }

    /** The annotation list is kept sorted by `start`. */
    ghost predicate Valid()
      reads this
    {
      SpanStore.SortedByStart(annotations)
    }

    /** No two annotations intersect. */
    ghost predicate Disjoint()
      reads this
    {
      SpanStore.NonOverlapping(annotations)
    }

    /** The main view shows when there is a file or text, and no error; never beside the error panel. */
    function ShowsMainView(): (r: bool)
      reads this
      ensures r ==> !Truthy(error)
    {
      (file.Some? || text != "") && !Truthy(error)
    }

    /**
     * The upload view shows while there is no file, no text and no error:
     * exactly one of the upload view, the error panel and the main view shows.
     */
    function ShowsFileUpload(): (r: bool)
      reads this
      ensures r <==> !Truthy(error) && !ShowsMainView()
    {
      file.None? && text == "" && !Truthy(error)
    }

    constructor()
      ensures Valid() && Disjoint()
      ensures State() == SessionState(None, "", [], None, false, None, None)
    {
      file, text, annotations, selection := None, "", [], None;
      isLoading, error, activeId := false, None, None;
    }

    /** `resetState`: every field back to its initial value. */
    method Reset()
      modifies this
      ensures Valid() && Disjoint()
      ensures State() == SessionState(None, "", [], None, false, None, None)
    {
      file, text, annotations, selection := None, "", [], None;
      isLoading, error, activeId := false, None, None;
    }

    /** `onTextSelect`, which is `setSelection`. */
    method TextSelect(range: Option<SelectionRange>)
      modifies this
      requires Valid()
      ensures Valid()
      ensures State() == old(State()).(selection := range)
    {
      selection := range;
    }

    /** `onAnnotationClick`, which is `setActiveAnnotationId`. */
    method AnnotationClick(id: string)
      modifies this
      requires Valid()
      ensures Valid()
      ensures State() == old(State()).(activeId := Some(id))
    {
      activeId := Some(id);
    }

    /**
     * `handleAddAnnotation`: without a non-empty selection, or when the
     * selected span intersects an existing annotation, nothing changes (the
     * selection stays). Otherwise the new annotation is sorted into the list
     * and the selection is cleared; a list without intersections keeps none.
     */
    method AddAnnotation(kind: AnnotationType, value: AnnotationValue, freshId: string)
      modifies this
      requires Valid()
      ensures Valid()
      ensures old(Disjoint()) ==> Disjoint()
      ensures !old(SelectionActive(selection)) ==> State() == old(State())
      ensures old(SelectionActive(selection)) ==>
                var a := SpanStore.NewAnnotation(text, old(selection.value), kind, value, freshId);
                State() == if SpanStore.OverlapsAny(old(annotations), a) then old(State())
                           else old(State()).(annotations := SpanStore.WithAnnotation(old(annotations), a), selection := None)
    {
      if !SelectionActive(selection) {
        return;
      }
      var a := SpanStore.NewAnnotation(text, selection.value, kind, value, freshId);
      var added := SpanStore.AddDisjoint(annotations, a);
      if added.None? {
        return;
      }
      SpanStore.WithAnnotationSpec(annotations, a);
      if Disjoint() {
        SpanStore.AddDisjointKeepsInvariant(annotations, a);
      }
      annotations := added.value;
      selection := None;
    }

    /** `handleUpdateAnnotationNote`: only notes of annotations with that id change. */
    method UpdateNote(id: string, note: string)
      modifies this
      requires Valid()
      ensures Valid()
      ensures old(Disjoint()) ==> Disjoint()
      ensures State() == old(State()).(annotations := SpanStore.UpdateNote(old(annotations), id, note))
    {
      annotations := SpanStore.UpdateNote(annotations, id, note);
    }

    /**
     * `handleDeleteAnnotation`: removes the annotations with that id, and
     * clears the active annotation only if it was that one.
     */
    method DeleteAnnotation(id: string)
      modifies this
      requires Valid()
      ensures Valid()
      ensures old(Disjoint()) ==> Disjoint()
      ensures State() == old(State()).(
                annotations := SpanStore.RemoveAnnotation(old(annotations), id),
                activeId := if old(activeId) == Some(id) then None else old(activeId))
    {
      var remaining := SpanStore.RemoveAnnotation(annotations, id);
      assert SpanStore.SortedByStart(remaining) by {
        SpanStore.RemoveAnnotationSpec(annotations, id);
      }
      assert SpanStore.NonOverlapping(annotations) ==> SpanStore.NonOverlapping(remaining) by {
        SpanStore.RemoveAnnotationSpec(annotations, id);
      }
      annotations := remaining;
      if activeId == Some(id) {
        activeId := None;
      }
    }

    /**
     * The load step of `handleLoadAnnotations`: a refused file only sets the
     * error; an accepted one installs its text and its annotations sorted by
     * `start`, and forgets the uploaded file. Any connections or connection
     * types in the file are ignored.
     */
    method Load(record: Option<SessionFile.SessionRecord>)
      modifies this
      requires Valid()
      ensures Valid()
      ensures SessionFile.Load(record).Failed? ==> State() == old(State()).(error := Some(SessionFile.LoadError))
      ensures SessionFile.Load(record).Ok? ==>
                var l := SessionFile.Load(record).loaded;
                State() == old(State()).(text := l.text, annotations := l.annotations, file := None)
    {
      var r := SessionFile.Load(record);
      match r
      case Failed(message) =>
        error := Some(message);
      case Ok(l) =>
        text, annotations, file := l.text, l.annotations, None;
    }

    /**
     * `handleSaveAnnotations`: the record written and its download name, or
     * nothing while there are no annotations. A saved session with text loads
     * back to the same text and annotations.
     */
    method Save() returns (r: Option<SessionFile.SessionRecord>, name: string)
      requires Valid()
      ensures r == SessionFile.SaveSimple(text, annotations)
      ensures name == DownloadName(file)
      ensures r.Some? && text != "" ==>
                SessionFile.Load(r).Ok? && SessionFile.Load(r).loaded.text == text
                && SessionFile.Load(r).loaded.annotations == annotations
    {
      r := SessionFile.SaveSimple(text, annotations);
      name := DownloadName(file);
      if r.Some? && text != "" {
        SpanStore.SortByStartSpec(annotations);
      }
    }
  }
}
