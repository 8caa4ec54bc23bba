/**
 * The annotation sidebars: the status line above the tools, when the tools
 * and the save button are disabled, and, in docs/, the connection-type
 * manager with its own input fields.
 */
module Sidebar {
  import opened Js
  import opened Types
  import ConnectionGraph
  import SessionFile

  const ConnectPrompt := "Select annotation to connect"
  const ToolPrompt := "Select a tool to annotate"
  const IdlePrompt := "Highlight text to begin"
  const StreamingPrompt := "Transcription in progress..."

  /**
   * `getStatusMessage` of docs/: a pending connection wins over an active
   * selection, and the default message shows otherwise.
   */
  function DocsStatus(pendingFrom: Option<string>, selectionActive: bool): (r: string)
    ensures r == ConnectPrompt <==> Truthy(pendingFrom)
    ensures r == ToolPrompt <==> !Truthy(pendingFrom) && selectionActive
    ensures r == IdlePrompt <==> !Truthy(pendingFrom) && !selectionActive
  {
    if Truthy(pendingFrom) then ConnectPrompt
    else if selectionActive then ToolPrompt
    else IdlePrompt
  }

  /**
   * `isDisabled` of docs/: the tools need an active selection and no pending
   * connection, so they are enabled exactly while the status asks for a tool.
   */
  function DocsToolsDisabled(pendingFrom: Option<string>, selectionActive: bool): (r: bool)
    ensures !r <==> DocsStatus(pendingFrom, selectionActive) == ToolPrompt
  {
    !selectionActive || Truthy(pendingFrom)
  }

  /**
   * `getStatusMessage` of the root editor: a running transcription wins
   * over an active selection, and the default message shows otherwise.
   */
  function RootStatus(isStreaming: bool, selectionActive: bool): (r: string)
    ensures r == StreamingPrompt <==> isStreaming
    ensures r == ToolPrompt <==> !isStreaming && selectionActive
    ensures r == IdlePrompt <==> !isStreaming && !selectionActive
  {
    if isStreaming then StreamingPrompt
    else if selectionActive then ToolPrompt
    else IdlePrompt
  }

  /**
   * `isDisabled` of the root editor: the tools need an active selection and
   * no transcription, so they are enabled exactly while the status asks for
   * a tool.
   */
  function RootToolsDisabled(isStreaming: bool, selectionActive: bool): (r: bool)
    ensures !r <==> RootStatus(isStreaming, selectionActive) == ToolPrompt
  {
    !selectionActive || isStreaming
  }

  /**
   * The save button is disabled while there are no annotations: exactly when
   * the root editor's save would write no record, whatever the text.
   */
  function SaveDisabled(anns: seq<Annotation>): (r: bool)
    ensures r <==> forall text :: SessionFile.SaveSimple(text, anns).None?
  {
    assert |anns| != 0 ==> SessionFile.SaveSimple("", anns).Some?;
    |anns| == 0
  }

  /** The save button is enabled exactly when a save writes a record, in both editors. */
  lemma SaveEnabledIffRecord(text: string, anns: seq<Annotation>, conns: seq<Connection>, types: seq<ConnectionType>)
    ensures !SaveDisabled(anns) <==> SessionFile.Save(text, anns, conns, types).Some?
    ensures !SaveDisabled(anns) <==> SessionFile.SaveSimple(text, anns).Some?
  {
  }

  /** No two connection types share an id. */
  ghost predicate IdsDistinct(types: seq<ConnectionType>)
  {
    forall i, j :: 0 <= i < j < |types| ==> types[i].id != types[j].id
  }

  /** Adding the same label twice: the second add is refused, whatever its id. */
  lemma AddTypeTwiceRefused(types: seq<ConnectionType>, raw: string, id1: string, id2: string)
    requires ConnectionGraph.AddType(types, raw, id1).Some?
    ensures ConnectionGraph.AddType(ConnectionGraph.AddType(types, raw, id1).value, raw, id2).None?
  {
    var added := ConnectionGraph.AddType(types, raw, id1).value;
    assert added[|types|].name == Trim(raw);
    assert EqualsIgnoreCase(added[|types|].name, Trim(raw));
  }

  /**
   * Saving an edit that did not change a type's label, which has no
   * surrounding whitespace, gives back the list as it was, provided no
   * other type shares its id.
   */
  lemma SaveUnchangedEdit(types: seq<ConnectionType>, k: int)
    requires IdsDistinct(types)
    requires 0 <= k < |types| && types[k].id != "" && types[k].name != []
    requires Trim(types[k].name) == types[k].name
    ensures ConnectionGraph.RenameType(types, Some(types[k].id), types[k].name) == Some(types)
  {
    var r := ConnectionGraph.RenameType(types, Some(types[k].id), types[k].name);
    assert r.Some?;
    assert r.value == types;
  }

  /** A snapshot of every field of a `ConnectionTypeManager`. */
  datatype ManagerState = ManagerState(newTypeLabel: string, editingId: Option<string>, editingLabel: string)

  /** The connection-type manager of docs/ and its three input fields. */
  class ConnectionTypeManager {
    var newTypeLabel: string
    var editingId: Option<string>
    var editingLabel: string

    function State(): ManagerState
      reads this
    {
      ManagerState(newTypeLabel, editingId, editingLabel)
    }

    constructor()
      ensures State() == ManagerState("", None, "")
    {
      newTypeLabel, editingId, editingLabel := "", None, "";
    }

    /** Typing into the new-type input. */
    method SetNewTypeLabel(s: string)
      modifies this
      ensures State() == old(State()).(newTypeLabel := s)
    {
      newTypeLabel := s;
    }

    /** Typing into the edit input. */
    method SetEditingLabel(s: string)
      modifies this
      ensures State() == old(State()).(editingLabel := s)
    {
      editingLabel := s;
    }

    /**
     * `handleAdd`: the list to hand to `onUpdate`, if the typed label is
     * accepted; the input is cleared only then. An accepted label keeps the
     * labels distinct ignoring case.
     */
    method HandleAdd(types: seq<ConnectionType>, freshId: string) returns (update: Option<seq<ConnectionType>>)
      modifies this
      ensures update == ConnectionGraph.AddType(types, old(newTypeLabel), freshId)
      ensures update.Some? ==> State() == old(State()).(newTypeLabel := "")
      ensures update.None? ==> State() == old(State())
      ensures update.Some? && ConnectionGraph.LabelsDistinct(types) ==> ConnectionGraph.LabelsDistinct(update.value)
    {
      update := ConnectionGraph.AddType(types, newTypeLabel, freshId);
      if update.Some? {
        if ConnectionGraph.LabelsDistinct(types) {
          ConnectionGraph.AddTypeKeepsLabelsDistinct(types, newTypeLabel, freshId);
        }
        newTypeLabel := "";
      }
    }

    /** `handleEdit`: start editing a type, from its current label. */
    method HandleEdit(t: ConnectionType)
      modifies this
      ensures State() == old(State()).(editingId := Some(t.id), editingLabel := t.name)
    {
      editingId := Some(t.id);
      editingLabel := t.name;
    }

    /**
     * `handleSaveEdit`: the list to hand to `onUpdate`, unless nothing is
     * being edited or the edited label is blank, in which case nothing
     * changes; after an update the editing state is cleared.
     */
    method HandleSaveEdit(types: seq<ConnectionType>) returns (update: Option<seq<ConnectionType>>)
      modifies this
      ensures update == ConnectionGraph.RenameType(types, old(editingId), old(editingLabel))
      ensures update.Some? ==> State() == old(State()).(editingId := None, editingLabel := "")
      ensures update.None? ==> State() == old(State())
    {
      if !Truthy(editingId) || Trim(editingLabel) == [] {
        return None;
      }
      update := ConnectionGraph.RenameType(types, editingId, editingLabel);
      editingId := None;
      editingLabel := "";
    }

    /** The Edit/Save button of type `t`: it saves while `t` is being edited and starts editing it otherwise. */
    method EditButton(types: seq<ConnectionType>, t: ConnectionType) returns (update: Option<seq<ConnectionType>>)
      modifies this
      ensures old(editingId) == Some(t.id) ==> update == ConnectionGraph.RenameType(types, old(editingId), old(editingLabel))
      ensures old(editingId) == Some(t.id) && update.Some? ==> State() == old(State()).(editingId := None, editingLabel := "")
      ensures old(editingId) == Some(t.id) && update.None? ==> State() == old(State())
      ensures old(editingId) != Some(t.id) ==>
                update.None? && State() == old(State()).(editingId := Some(t.id), editingLabel := t.name)
    {
      if editingId == Some(t.id) {
        update := HandleSaveEdit(types);
      } else {
        HandleEdit(t);
        update := None;
      }
    }
  }
}
