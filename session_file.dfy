/**
 * The session file of both editors, as the record `JSON.parse` yields: the
 * validation and defaulting a load applies to it, and the record a save
 * writes. The editor of docs/ saves text, annotations, connections and
 * connection types; the root editor saves text and annotations only.
 */
module SessionFile {
  import opened Js
  import opened Types
  import SpanStore
  import ConnectionGraph

  /**
   * A parsed session file. A field is `None` when it is absent or of the
   * wrong kind: `text` when it is not a string, `annotations` when it is
   * not an array.
   */
  datatype SessionRecord = SessionRecord(
    text: Option<string>,
    annotations: Option<seq<Annotation>>,
    connections: Option<seq<Connection>>,
    connectionTypes: Option<seq<ConnectionType>>)

  /** The state a successful load installs. */
  datatype Loaded = Loaded(
    text: string,
    annotations: seq<Annotation>,
    connections: seq<Connection>,
    connectionTypes: seq<ConnectionType>)

  datatype LoadResult = Ok(loaded: Loaded) | Failed(message: string)

  /** The message both editors show when a file is refused. */
  const LoadError := "Failed to load or parse the annotation file."

  /**
   * The load step applied to the parsed file (`None` when `JSON.parse`
   * threw). A file is accepted exactly when its text is a non-empty string
   * and its annotations an array; the annotations are then sorted by
   * `start`, missing connections become none and missing connection types
   * become the five defaults.
   */
  function Load(record: Option<SessionRecord>): (r: LoadResult)
    ensures r.Ok? <==> record.Some? && Truthy(record.value.text) && record.value.annotations.Some?
    ensures r.Failed? ==> r.message == LoadError
    ensures r.Ok? ==> r.loaded.text == record.value.text.value && r.loaded.text != ""
    ensures r.Ok? ==> SpanStore.SortedByStart(r.loaded.annotations)
                      && multiset(r.loaded.annotations) == multiset(record.value.annotations.value)
    ensures r.Ok? ==> r.loaded.connections == if record.value.connections.Some? then record.value.connections.value else []
    ensures r.Ok? ==> r.loaded.connectionTypes ==
                        if record.value.connectionTypes.Some? then record.value.connectionTypes.value else ConnectionGraph.DefaultTypes
  {
    if record.None? || !Truthy(record.value.text) || record.value.annotations.None? then Failed(LoadError)
    else
      var f := record.value;
      SpanStore.SortByStartSpec(f.annotations.value);
      Ok(Loaded(
        f.text.value,
        SpanStore.SortByStart(f.annotations.value),
        if f.connections.Some? then f.connections.value else [],
        if f.connectionTypes.Some? then f.connectionTypes.value else ConnectionGraph.DefaultTypes))
  }

  /**
   * `handleSaveAnnotations` of docs/: nothing is written while there are no
   * annotations; otherwise all four fields are.
   */
  function Save(text: string, anns: seq<Annotation>, conns: seq<Connection>, types: seq<ConnectionType>): (r: Option<SessionRecord>)
    ensures r.None? <==> anns == []
    ensures r.Some? ==> r.value.text == Some(text) && r.value.annotations == Some(anns)
                        && r.value.connections == Some(conns) && r.value.connectionTypes == Some(types)
  {
    if anns == [] then None
    else Some(SessionRecord(Some(text), Some(anns), Some(conns), Some(types)))
  }

  /** `handleSaveAnnotations` of the root editor: text and annotations only. */
  function SaveSimple(text: string, anns: seq<Annotation>): (r: Option<SessionRecord>)
    ensures r.None? <==> anns == []
    ensures r.Some? ==> r.value.text == Some(text) && r.value.annotations == Some(anns)
                        && r.value.connections.None? && r.value.connectionTypes.None?
  {
    if anns == [] then None
    else Some(SessionRecord(Some(text), Some(anns), None, None))
  }

  /**
   * Saving a session with some text and annotations kept sorted by `start`
   * and loading the file back restores that session.
   */
  lemma SaveLoadRoundTrip(text: string, anns: seq<Annotation>, conns: seq<Connection>, types: seq<ConnectionType>)
    requires text != "" && anns != []
    requires SpanStore.SortedByStart(anns)
    ensures Load(Save(text, anns, conns, types)) == Ok(Loaded(text, anns, conns, types))
  {
    SpanStore.SortByStartSpec(anns);
  }

  /**
   * A file of the root editor loads into the editor of docs/ with its text,
   * its annotations sorted by `start`, no connections and the default
   * connection types.
   */
  lemma SimpleFileLoadsWithDefaults(text: string, anns: seq<Annotation>)
    requires text != "" && anns != []
    ensures Load(SaveSimple(text, anns)) == Ok(Loaded(text, SpanStore.SortByStart(anns), [], ConnectionGraph.DefaultTypes))
  {
  }

  /** A session with no text is never saved in a form that loads back. */
  lemma EmptyTextDoesNotLoad(anns: seq<Annotation>, conns: seq<Connection>, types: seq<ConnectionType>)
    ensures Load(Save("", anns, conns, types)).Failed?
  {
  }
}
