/**
 * Typed connections between annotations in the editor of docs/: the pending
 * connection a click completes, the refusal of self-connections and of a
 * second connection on the same unordered pair, the cascades that drop
 * connections when an annotation or a connection type goes, and the registry
 * of connection types with its trimmed, case-insensitively unique labels.
 */
module ConnectionGraph {
  import opened Js
  import opened Types
  import Seqs

  /** The pending connection `{ from, type }`: a source id and a type label, each possibly `null`. */
  datatype Pending = Pending(source: Option<string>, typeName: Option<string>)

  /** `{ from: null, type: null }`. */
  const NoPending := Pending(None, None)

  /**
   * A connection is waiting for its target when its source is truthy: a
   * non-empty id. The cleared state is never pending.
   */
  function IsPending(p: Pending): (r: bool)
    ensures r <==> p.source.Some? && p.source.value != ""
    ensures p == NoPending ==> !r
  {
    Truthy(p.source)
  }

  /** `c` joins `x` and `y`, in either direction. */
  predicate Joins(c: Connection, x: string, y: string)
  {
    (c.source == x && c.target == y) || (c.source == y && c.target == x)
  }

  /** Some connection already joins `x` and `y`, in either direction. */
  predicate PairTaken(conns: seq<Connection>, x: string, y: string)
  {
    exists i :: 0 <= i < |conns| && Joins(conns[i], x, y)
  }

  /** No connection joins an annotation to itself. */
  ghost predicate NoSelfConnections(conns: seq<Connection>)
  {
    forall i :: 0 <= i < |conns| ==> conns[i].source != conns[i].target
  }

  /** No later connection joins the pair of an earlier one, in either direction. */
  ghost predicate UniquePairs(conns: seq<Connection>)
  {
    forall i, j :: 0 <= i < j < |conns| ==> !Joins(conns[j], conns[i].source, conns[i].target)
  }

  /** What the connection handlers keep true of the connection list. */
  ghost predicate WellFormed(conns: seq<Connection>)
  {
    NoSelfConnections(conns) && UniquePairs(conns)
  }

  /** `UniquePairs` read in both orders: two different positions never join the same pair. */
  lemma UniquePairsBothWays(conns: seq<Connection>, i: int, j: int)
    requires UniquePairs(conns)
    requires 0 <= i < |conns| && 0 <= j < |conns| && i != j
    ensures !Joins(conns[i], conns[j].source, conns[j].target)
  {
    if i < j {
      assert !Joins(conns[j], conns[i].source, conns[i].target);
    }
  }

  /** The three ways `handleCompleteConnection` ends. */
  datatype Completion =
    | Ignored                  // nothing pending, or the target is the source: nothing changes
    | Duplicate                // the pair is already joined: the pending state is cleared
    | Created(conn: Connection) // the connection is appended and the pending state cleared

  /**
   * Completing the pending connection at `target`. It is ignored when the
   * source or the type is missing or blank or the target is the source; it
   * is a duplicate when a connection already joins the two annotations, in
   * either direction; otherwise it creates the connection from the pending
   * source to the target with the pending type label and the fresh id.
   */
  function Complete(conns: seq<Connection>, pending: Pending, target: string, freshId: string): (r: Completion)
    ensures r.Ignored? <==> !Truthy(pending.source) || !Truthy(pending.typeName) || pending.source.value == target
    ensures r.Duplicate? <==> !r.Ignored? && PairTaken(conns, pending.source.value, target)
    ensures r.Created? ==> (r.conn.id == freshId && r.conn.source == pending.source.value
                            && r.conn.target == target && r.conn.typeName == pending.typeName.value)
  {
    if !Truthy(pending.source) || !Truthy(pending.typeName) || pending.source.value == target then Ignored
    else if PairTaken(conns, pending.source.value, target) then Duplicate
    else Created(Connection(freshId, pending.source.value, target, pending.typeName.value))
  }

  /**
   * Appending a created connection keeps the list well formed: the new
   * connection is no self-connection and its pair was free.
   */
  lemma CompleteKeepsWellFormed(conns: seq<Connection>, pending: Pending, target: string, freshId: string)
    requires WellFormed(conns)
    requires Complete(conns, pending, target, freshId).Created?
    ensures WellFormed(conns + [Complete(conns, pending, target, freshId).conn])
  {
    var c := Complete(conns, pending, target, freshId).conn;
    var s := conns + [c];
    forall i, j | 0 <= i < j < |s| ensures !Joins(s[j], s[i].source, s[i].target) {
      if j == |conns| {
        if Joins(c, conns[i].source, conns[i].target) {
          assert Joins(conns[i], c.source, c.target);
          assert false;
        }
      } else {
        assert s[i] == conns[i] && s[j] == conns[j];
      }
    }
  }

  /** Keeps the connections that do not touch annotation `id`. */
  function KeepsClearOf(id: string): Connection -> bool
  {
    (c: Connection) => c.source != id && c.target != id
  }

  /** `prev.filter(conn => conn.from !== id && conn.to !== id)`. */
  function DetachAnnotation(conns: seq<Connection>, id: string): (r: seq<Connection>)
    ensures forall c :: c in r <==> c in conns && c.source != id && c.target != id
  {
    Seqs.FilterMembers(conns, KeepsClearOf(id));
    Seqs.Filter(conns, KeepsClearOf(id))
  }

  /** Keeps the connections whose type label is not `name`. */
  function KeepsTypeOtherThan(name: string): Connection -> bool
  {
    (c: Connection) => c.typeName != name
  }

  /** `prev.filter(c => c.type !== label)`. */
  function DropTypeName(conns: seq<Connection>, name: string): (r: seq<Connection>)
    ensures forall c :: c in r <==> c in conns && c.typeName != name
  {
    Seqs.FilterMembers(conns, KeepsTypeOtherThan(name));
    Seqs.Filter(conns, KeepsTypeOtherThan(name))
  }

  /** A filter of a well-formed list is well formed: it keeps survivors in order. */
  lemma FilterKeepsWellFormed(conns: seq<Connection>, p: Connection -> bool)
    requires WellFormed(conns)
    ensures WellFormed(Seqs.Filter(conns, p))
  {
    var r := Seqs.Filter(conns, p);
    var distinct := (a: Connection, b: Connection) => !Joins(b, a.source, a.target);
    assert Seqs.Pairwise(conns, distinct);
    Seqs.FilterPairwise(conns, p, distinct);
    Seqs.FilterMembers(conns, p);
    forall i | 0 <= i < |r| ensures r[i].source != r[i].target {
      assert r[i] in conns;
    }
  }

  /**
   * Both cascades keep the connection list well formed, and leave it as it
   * was when no connection is affected.
   */
  lemma CascadesKeepWellFormed(conns: seq<Connection>, id: string, name: string)
    ensures WellFormed(conns) ==> WellFormed(DetachAnnotation(conns, id)) && WellFormed(DropTypeName(conns, name))
    ensures (forall c :: c in conns ==> c.source != id && c.target != id) ==> DetachAnnotation(conns, id) == conns
    ensures (forall c :: c in conns ==> c.typeName != name) ==> DropTypeName(conns, name) == conns
  {
    if WellFormed(conns) {
      FilterKeepsWellFormed(conns, KeepsClearOf(id));
      FilterKeepsWellFormed(conns, KeepsTypeOtherThan(name));
    }
    if forall c :: c in conns ==> c.source != id && c.target != id {
      Seqs.FilterAll(conns, KeepsClearOf(id));
    }
    if forall c :: c in conns ==> c.typeName != name {
      Seqs.FilterAll(conns, KeepsTypeOtherThan(name));
    }
  }

  /** The connection types every session starts with, and the load default. */
  const DefaultTypes: seq<ConnectionType> := [
    ConnectionType("ct-settings", "settings"),
    ConnectionType("ct-description", "description"),
    ConnectionType("ct-relationship", "relationship"),
    ConnectionType("ct-cause", "cause"),
    ConnectionType("ct-effect", "effect")
  ]

  /** `types.find(t => t.id === id)`: the first type with that id, if any. */
  function FindType(types: seq<ConnectionType>, id: string): (r: Option<ConnectionType>)
    ensures r.None? <==> forall i :: 0 <= i < |types| ==> types[i].id != id
    ensures r.Some? ==> exists i :: 0 <= i < |types| && types[i] == r.value && r.value.id == id
                                    && forall j :: 0 <= j < i ==> types[j].id != id
  {
    if types == [] then None
    else if types[0].id == id then Some(types[0])
    else
      var r := FindType(types[1..], id);
      if r.Some? then
        var i :| 0 <= i < |types[1..]| && types[1..][i] == r.value && r.value.id == id
                 && forall j :: 0 <= j < i ==> types[1..][j].id != id;
        assert types[i + 1] == r.value;
        r
      else r
  }

  /** Keeps the types whose id is not `id`. */
  function KeepsIdOtherThan(id: string): ConnectionType -> bool
  {
    (t: ConnectionType) => t.id != id
  }

  /** `prev.filter(t => t.id !== id)`. */
  function RemoveTypeId(types: seq<ConnectionType>, id: string): (r: seq<ConnectionType>)
    ensures forall t :: t in r <==> t in types && t.id != id
  {
    Seqs.FilterMembers(types, KeepsIdOtherThan(id));
    Seqs.Filter(types, KeepsIdOtherThan(id))
  }

  /** Some existing label equals `name` once both are lower-cased. */
  predicate LabelTaken(types: seq<ConnectionType>, name: string)
  {
    exists i :: 0 <= i < |types| && EqualsIgnoreCase(types[i].name, name)
  }

  /** No two labels of the registry are equal ignoring case. */
  ghost predicate LabelsDistinct(types: seq<ConnectionType>)
  {
    forall i, j :: 0 <= i < j < |types| ==> !EqualsIgnoreCase(types[i].name, types[j].name)
  }

  /**
   * `handleAdd`: the typed label is trimmed; a blank label, or one equal
   * ignoring case to an existing label, is refused (`None`); otherwise the
   * new type with the fresh id and the trimmed label is appended.
   */
  function AddType(types: seq<ConnectionType>, raw: string, freshId: string): (r: Option<seq<ConnectionType>>)
    ensures r.None? <==> AllWhitespace(raw) || LabelTaken(types, Trim(raw))
    ensures r.Some? ==> (|r.value| == |types| + 1 && r.value[..|types|] == types
                         && r.value[|types|] == ConnectionType(freshId, Trim(raw)))
  {
    var trimmed := Trim(raw);
    if trimmed == [] || LabelTaken(types, trimmed) then None
    else Some(types + [ConnectionType(freshId, trimmed)])
  }

  /**
   * An accepted add keeps the labels distinct ignoring case, and the label
   * it adds is not blank and has no whitespace at either end.
   */
  lemma AddTypeKeepsLabelsDistinct(types: seq<ConnectionType>, raw: string, freshId: string)
    requires LabelsDistinct(types)
    requires AddType(types, raw, freshId).Some?
    ensures LabelsDistinct(AddType(types, raw, freshId).value)
    ensures var added := AddType(types, raw, freshId).value[|types|].name;
            added != [] && Trim(added) == added
  {
    var s := AddType(types, raw, freshId).value;
    forall i, j | 0 <= i < j < |s| ensures !EqualsIgnoreCase(s[i].name, s[j].name) {
      if j == |types| {
        assert s[i] == types[i];
      } else {
        assert s[i] == types[i] && s[j] == types[j];
      }
    }
    TrimIdempotent(raw);
  }

  /**
   * `handleSaveEdit`: nothing happens (`None`) when no type is being edited
   * or the edited label is blank; otherwise the type with the edited id gets
   * the trimmed label and every other type is unchanged.
   */
  function RenameType(types: seq<ConnectionType>, editingId: Option<string>, editingLabel: string): (r: Option<seq<ConnectionType>>)
    ensures r.None? <==> !Truthy(editingId) || AllWhitespace(editingLabel)
    ensures r.Some? ==> |r.value| == |types|
    ensures r.Some? ==> forall i :: 0 <= i < |types| ==> r.value[i].id == types[i].id
    ensures r.Some? ==> forall i :: 0 <= i < |types| ==>
                          r.value[i].name == if types[i].id == editingId.value then Trim(editingLabel) else types[i].name
  {
    if !Truthy(editingId) || Trim(editingLabel) == [] then None
    else
      Some(seq(|types|, i requires 0 <= i < |types| =>
        if types[i].id == editingId.value then types[i].(name := Trim(editingLabel)) else types[i]))
  }

  /**
   * Unlike an add, an edit does not check the new label against the others:
   * renaming "cause" to "Effect" leaves two labels equal ignoring case.
   */
  lemma RenameMayDuplicateLabel()
    ensures LabelsDistinct([ConnectionType("ct-cause", "cause"), ConnectionType("ct-effect", "effect")])
    ensures RenameType([ConnectionType("ct-cause", "cause"), ConnectionType("ct-effect", "effect")], Some("ct-cause"), "Effect")
            == Some([ConnectionType("ct-cause", "Effect"), ConnectionType("ct-effect", "effect")])
    ensures !LabelsDistinct([ConnectionType("ct-cause", "Effect"), ConnectionType("ct-effect", "effect")])
  {
    // the lower-cased labels differ in length
    assert |ToLower("cause")| != |ToLower("effect")|;
    RenameCauseToEffect();
    EffectLabelsClash();
  }

  lemma RenameCauseToEffect()
    ensures RenameType([ConnectionType("ct-cause", "cause"), ConnectionType("ct-effect", "effect")], Some("ct-cause"), "Effect")
            == Some([ConnectionType("ct-cause", "Effect"), ConnectionType("ct-effect", "effect")])
  {
    var types := [ConnectionType("ct-cause", "cause"), ConnectionType("ct-effect", "effect")];
    var renamed := [ConnectionType("ct-cause", "Effect"), ConnectionType("ct-effect", "effect")];
    TrimUnchanged("Effect");
    var r := RenameType(types, Some("ct-cause"), "Effect").value;
    assert r[0] == renamed[0] && r[1] == renamed[1];
    assert r == renamed;
  }

  lemma EffectLabelsClash()
    ensures !LabelsDistinct([ConnectionType("ct-cause", "Effect"), ConnectionType("ct-effect", "effect")])
  {
    var renamed := [ConnectionType("ct-cause", "Effect"), ConnectionType("ct-effect", "effect")];
    var lower := ToLower("Effect");
    assert lower[0] == LowerChar('E') == 'e';
    assert EqualsIgnoreCase(renamed[0].name, renamed[1].name);
  }
}
