/**
 * The session of the editor in docs/: the text, its annotations (overlap
 * allowed), the connections between them and their types, the pending
 * connection, and the selection, active-annotation and toolbar state the
 * handlers update. Toolbar positions are left out: the quick toolbar is
 * open or closed, and the action toolbar is open over an annotation or closed.
 */
module DocsApp {
  import opened Js
  import opened Types
  import SpanStore
  import ConnectionGraph
  import SessionFile

  /** Every session of this editor downloads under the same name. */
  const DownloadName := "annotations-session.json"

  /** A snapshot of every field of a `Session`, for stating what a handler leaves alone. */
  datatype SessionState = SessionState(
    text: string,
    annotations: seq<Annotation>,
    selection: Option<SelectionRange>,
    error: Option<string>,
    activeId: Option<string>,
    quickToolbar: bool,
    actionToolbar: Option<string>,
    connections: seq<Connection>,
    connectionTypes: seq<ConnectionType>,
    pending: ConnectionGraph.Pending,
    showMindGraph: bool)

  class Session {
    var text: string
    var annotations: seq<Annotation>
    var selection: Option<SelectionRange>
    var error: Option<string>
    var activeId: Option<string>
    var quickToolbar: bool
    /** The id of the annotation the action toolbar is open over. */
    var actionToolbar: Option<string>
    var connections: seq<Connection>
    var connectionTypes: seq<ConnectionType>
    var pending: ConnectionGraph.Pending
    var showMindGraph: bool

    function State(): SessionState
      reads this
    {
      SessionState(text, annotations, selection, error, activeId, quickToolbar, actionToolbar,
                   connections, connectionTypes, pending, showMindGraph)
    }

    /** The annotation list is kept sorted by `start`. */
    ghost predicate Valid()
      reads this
    {
      SpanStore.SortedByStart(annotations)
    }

    /** No self-connection and at most one connection per pair of annotations. */
    ghost predicate ConnectionsWellFormed()
      reads this
    {
      ConnectionGraph.WellFormed(connections)
    }

    /** The main view shows when there is text and no error; never beside the error panel. */
    function ShowsMainView(): (r: bool)
      reads this
      ensures r ==> !Truthy(error)
    {
      text != "" && !Truthy(error)
    }

    /**
     * The entry view shows while there is neither text nor an error: exactly
     * one of the entry view, the error panel and the main view shows.
     */
    function ShowsTextEntry(): (r: bool)
      reads this
      ensures r <==> !Truthy(error) && !ShowsMainView()
    {
      text == "" && !Truthy(error)
    }

    /** The initial state: no text, no annotations, the five default connection types. */
    constructor()
      ensures Valid() && ConnectionsWellFormed()
      ensures State() == SessionState("", [], None, None, None, false, None, [],
                                      ConnectionGraph.DefaultTypes, ConnectionGraph.NoPending, false)
    {
      text, annotations, selection, error := "", [], None, None;
      activeId, quickToolbar, actionToolbar := None, false, None;
      connections, connectionTypes := [], ConnectionGraph.DefaultTypes;
      pending, showMindGraph := ConnectionGraph.NoPending, false;
    }

    /**
     * `resetState`: clears annotations, connections, selection, error, active
     * annotation, toolbars, mind-graph view and pending connection, and the
     * text too on a full reset. The connection types survive.
     */
    method Reset(fullReset: bool)
      modifies this
      ensures Valid() && ConnectionsWellFormed()
      ensures State() == SessionState(if fullReset then "" else old(text), [], None, None, None, false, None, [],
                                      old(connectionTypes), ConnectionGraph.NoPending, false)
    {
      if fullReset {
        text := "";
      }
      annotations, connections, selection, error := [], [], None, None;
      activeId, quickToolbar, actionToolbar := None, false, None;
      showMindGraph, pending := false, ConnectionGraph.NoPending;
    }

    /** `handleTextSubmit`: a partial reset, then the submitted text. */
    method TextSubmit(t: string)
      modifies this
      ensures Valid() && ConnectionsWellFormed()
      ensures State() == SessionState(t, [], None, None, None, false, None, [],
                                      old(connectionTypes), ConnectionGraph.NoPending, false)
    {
      Reset(false);
      text := t;
    }

    /**
     * `onTextSelect`: records the reported selection and closes the action
     * toolbar; the quick toolbar opens exactly for a non-empty selection
     * that comes with a bounding box.
     */
    method TextSelect(range: Option<SelectionRange>, hasRect: bool)
      modifies this
      requires Valid()
      ensures Valid()
      ensures quickToolbar <==> SelectionActive(range) && hasRect
      ensures State() == old(State()).(selection := range, actionToolbar := None, quickToolbar := quickToolbar)
    {
      selection := range;
      actionToolbar := None;
      quickToolbar := SelectionActive(range) && hasRect;
    }

    /**
     * `handleAddAnnotation`: without a non-empty selection nothing changes.
     * Otherwise the new annotation (the selected span, the text under it, an
     * empty note) is sorted into the list, and the selection and the quick
     * toolbar are cleared.
     */
    method AddAnnotation(kind: AnnotationType, value: AnnotationValue, freshId: string)
      modifies this
      requires Valid()
      ensures Valid()
      ensures !old(SelectionActive(selection)) ==> State() == old(State())
      ensures old(SelectionActive(selection)) ==>
                State() == old(State()).(
                  annotations := SpanStore.WithAnnotation(old(annotations), SpanStore.NewAnnotation(text, old(selection.value), kind, value, freshId)),
                  selection := None,
                  quickToolbar := false)
    {
      if !SelectionActive(selection) {
        return;
      }
      var a := SpanStore.NewAnnotation(text, selection.value, kind, value, freshId);
      SpanStore.WithAnnotationSpec(annotations, a);
      annotations := SpanStore.WithAnnotation(annotations, a);
      selection := None;
      quickToolbar := false;
    }

    /** `handleUpdateAnnotationNote`: only notes of annotations with that id change. */
    method UpdateNote(id: string, note: string)
      modifies this
      requires Valid()
      ensures Valid()
      ensures State() == old(State()).(annotations := SpanStore.UpdateNote(old(annotations), id, note))
    {
      annotations := SpanStore.UpdateNote(annotations, id, note);
    }

    /**
     * `handleDeleteAnnotation`: removes the annotations with that id and every
     * connection from or to it, and clears the active annotation only if it
     * was that one. The pending connection is left as it is.
     */
    method DeleteAnnotation(id: string)
      modifies this
      requires Valid()
      ensures Valid()
      ensures old(ConnectionsWellFormed()) ==> ConnectionsWellFormed()
      ensures State() == old(State()).(
                annotations := SpanStore.RemoveAnnotation(old(annotations), id),
                connections := ConnectionGraph.DetachAnnotation(old(connections), id),
                activeId := if old(activeId) == Some(id) then None else old(activeId))
    {
      var remaining := SpanStore.RemoveAnnotation(annotations, id);
      var kept := ConnectionGraph.DetachAnnotation(connections, id);
      assert SpanStore.SortedByStart(remaining) by {
        SpanStore.RemoveAnnotationSpec(annotations, id);
      }
      assert ConnectionGraph.WellFormed(connections) ==> ConnectionGraph.WellFormed(kept) by {
        if ConnectionGraph.WellFormed(connections) {
          ConnectionGraph.FilterKeepsWellFormed(connections, ConnectionGraph.KeepsClearOf(id));
        }
      }
      annotations, connections := remaining, kept;
      if activeId == Some(id) {
        activeId := None;
      }
    }

    /**
     * `handleStartConnection`: the connection waits for a target, its source
     * stays the active annotation, and the action toolbar closes.
     */
    method StartConnection(fromId: string, typeName: string)
      modifies this
      requires Valid()
      ensures Valid()
      ensures State() == old(State()).(
                pending := ConnectionGraph.Pending(Some(fromId), Some(typeName)),
                activeId := Some(fromId),
                actionToolbar := None)
    {
      pending := ConnectionGraph.Pending(Some(fromId), Some(typeName));
      activeId := Some(fromId);
      actionToolbar := None;
    }

    /** `handleCancelConnection`. */
    method CancelConnection()
      modifies this
      requires Valid()
      ensures Valid()
      ensures State() == old(State()).(pending := ConnectionGraph.NoPending)
    {
      pending := ConnectionGraph.NoPending;
    }

    /**
     * `handleCompleteConnection`: an ignored completion changes nothing (a
     * pending connection stays pending); a duplicate only clears the pending
     * connection; otherwise the new connection is appended and the pending
     * connection cleared. The connections stay well formed.
     */
    method CompleteConnection(target: string, freshId: string)
      modifies this
      requires Valid()
      ensures Valid()
      ensures old(ConnectionsWellFormed()) ==> ConnectionsWellFormed()
      ensures var c := ConnectionGraph.Complete(old(connections), old(pending), target, freshId);
              State() == match c
                case Ignored => old(State())
                case Duplicate => old(State()).(pending := ConnectionGraph.NoPending)
                case Created(conn) => old(State()).(connections := old(connections) + [conn], pending := ConnectionGraph.NoPending)
    {
      var c := ConnectionGraph.Complete(connections, pending, target, freshId);
      match c
      case Ignored =>
      case Duplicate =>
        pending := ConnectionGraph.NoPending;
      case Created(conn) =>
        if ConnectionsWellFormed() {
          ConnectionGraph.CompleteKeepsWellFormed(connections, pending, target, freshId);
        }
        connections := connections + [conn];
        pending := ConnectionGraph.NoPending;
    }

    /**
     * `handleAnnotationClick`. While a connection is pending the click
     * completes it at the clicked annotation. Otherwise a click on the active
     * annotation whose action toolbar is open closes both; any other click
     * makes the annotation active and, once the main container is mounted,
     * opens its action toolbar and closes the quick toolbar.
     */
    method AnnotationClick(id: string, containerMounted: bool, freshId: string)
      modifies this
      requires Valid()
      ensures Valid()
      ensures old(ConnectionsWellFormed()) ==> ConnectionsWellFormed()
      ensures old(ConnectionGraph.IsPending(pending)) ==>
                State() == match ConnectionGraph.Complete(old(connections), old(pending), id, freshId)
                  case Ignored => old(State())
                  case Duplicate => old(State()).(pending := ConnectionGraph.NoPending)
                  case Created(conn) => old(State()).(connections := old(connections) + [conn], pending := ConnectionGraph.NoPending)
      ensures !old(ConnectionGraph.IsPending(pending)) && old(activeId) == Some(id) && old(actionToolbar).Some? ==>
                State() == old(State()).(activeId := None, actionToolbar := None)
      ensures !old(ConnectionGraph.IsPending(pending)) && !(old(activeId) == Some(id) && old(actionToolbar).Some?) ==>
                State() == if containerMounted then old(State()).(activeId := Some(id), actionToolbar := Some(id), quickToolbar := false)
                           else old(State()).(activeId := Some(id))
    {
      if ConnectionGraph.IsPending(pending) {
        CompleteConnection(id, freshId);
        return;
      }
      if activeId == Some(id) && actionToolbar.Some? {
        activeId := None;
        actionToolbar := None;
      } else {
        activeId := Some(id);
        if !containerMounted {
          return;
        }
        actionToolbar := Some(id);
        quickToolbar := false;
      }
    }

    /** `handleUpdateConnectionTypes`: installs the list the type manager computed. */
    method UpdateConnectionTypes(types: seq<ConnectionType>)
      modifies this
      requires Valid()
      ensures Valid()
      ensures State() == old(State()).(connectionTypes := types)
    {
      connectionTypes := types;
    }

    /**
     * `handleDeleteConnectionType`: an unknown id changes nothing; otherwise
     * the types with that id go, and with them every connection labelled with
     * the label of the first type that had it.
     */
    method DeleteConnectionType(id: string)
      modifies this
      requires Valid()
      ensures Valid()
      ensures old(ConnectionsWellFormed()) ==> ConnectionsWellFormed()
      ensures ConnectionGraph.FindType(old(connectionTypes), id).None? ==> State() == old(State())
      ensures ConnectionGraph.FindType(old(connectionTypes), id).Some? ==>
                State() == old(State()).(
                  connectionTypes := ConnectionGraph.RemoveTypeId(old(connectionTypes), id),
                  connections := ConnectionGraph.DropTypeName(old(connections), ConnectionGraph.FindType(old(connectionTypes), id).value.name))
    {
      var found := ConnectionGraph.FindType(connectionTypes, id);
      if found.None? {
        return;
      }
      var kept := ConnectionGraph.DropTypeName(connections, found.value.name);
      assert ConnectionGraph.WellFormed(connections) ==> ConnectionGraph.WellFormed(kept) by {
        if ConnectionGraph.WellFormed(connections) {
          ConnectionGraph.FilterKeepsWellFormed(connections, ConnectionGraph.KeepsTypeOtherThan(found.value.name));
        }
      }
      connectionTypes, connections := ConnectionGraph.RemoveTypeId(connectionTypes, id), kept;
    }

    /**
     * The window's keydown handler, given the key and the tag name of the
     * event's target. Delete or Backspace with an active annotation deletes it,
     * unless the focus is in a textarea or an input. Escape cancels a pending
     * connection if there is one, and otherwise closes the toolbars.
     */
    method KeyDown(key: string, targetTag: string)
      modifies this
      requires Valid()
      ensures Valid()
      ensures old(ConnectionsWellFormed()) ==> ConnectionsWellFormed()
      ensures Truthy(old(activeId)) && (key == "Delete" || key == "Backspace") ==>
                State() == if ToLower(targetTag) in ["textarea", "input"] then old(State())
                           else old(State()).(
                             annotations := SpanStore.RemoveAnnotation(old(annotations), old(activeId).value),
                             connections := ConnectionGraph.DetachAnnotation(old(connections), old(activeId).value),
                             activeId := None)
      ensures !Truthy(old(activeId)) && (key == "Delete" || key == "Backspace") ==> State() == old(State())
      ensures key == "Escape" ==>
                State() == if ConnectionGraph.IsPending(old(pending)) then old(State()).(pending := ConnectionGraph.NoPending)
                           else if old(quickToolbar) || old(actionToolbar).Some? then old(State()).(quickToolbar := false, actionToolbar := None)
                           else old(State())
      ensures key !in ["Delete", "Backspace", "Escape"] ==> State() == old(State())
    {
      if Truthy(activeId) && (key == "Delete" || key == "Backspace") {
        if ToLower(targetTag) in ["textarea", "input"] {
          return;
        }
        DeleteAnnotation(activeId.value);
      }
      if key == "Escape" {
        if ConnectionGraph.IsPending(pending) {
          CancelConnection();
        } else if quickToolbar || actionToolbar.Some? {
          quickToolbar := false;
          actionToolbar := None;
        }
      }
    }

    /**
     * The load step of `handleLoadAnnotations` (`record` is `None` when the
     * file is not JSON). A refused file only sets the error; an accepted one
     * replaces text, annotations, connections and connection types and
     * leaves every other field as it was.
     */
    method Load(record: Option<SessionFile.SessionRecord>)
      modifies this
      requires Valid()
      ensures Valid()
      ensures SessionFile.Load(record).Failed? ==> State() == old(State()).(error := Some(SessionFile.LoadError))
      ensures SessionFile.Load(record).Ok? ==>
                var l := SessionFile.Load(record).loaded;
                State() == old(State()).(text := l.text, annotations := l.annotations,
                                         connections := l.connections, connectionTypes := l.connectionTypes)
    {
      var r := SessionFile.Load(record);
      match r
      case Failed(message) =>
        error := Some(message);
      case Ok(l) =>
        text, annotations, connections, connectionTypes := l.text, l.annotations, l.connections, l.connectionTypes;
    }

    /**
     * `handleSaveAnnotations`: the record written and the name it downloads
     * under, or no record while there are no annotations. A saved session
     * with text loads back exactly.
     */
    method Save() returns (r: Option<SessionFile.SessionRecord>, name: string)
      requires Valid()
      ensures r == SessionFile.Save(text, annotations, connections, connectionTypes)
      ensures name == DownloadName
      ensures r.Some? && text != "" ==> SessionFile.Load(r) == SessionFile.Ok(SessionFile.Loaded(text, annotations, connections, connectionTypes))
    {
      r := SessionFile.Save(text, annotations, connections, connectionTypes);
      name := DownloadName;
      if r.Some? && text != "" {
        SessionFile.SaveLoadRoundTrip(text, annotations, connections, connectionTypes);
      }
    }

    /** The header button that switches between the text view and the mind graph. */
    method ToggleMindGraph()
      modifies this
      requires Valid()
      ensures Valid()
      ensures State() == old(State()).(showMindGraph := !old(showMindGraph))
    {
      showMindGraph := !showMindGraph;
    }
  }
}
