/**
 * The mind graph view of docs/: one node per annotation, the most connected
 * annotation in the middle and the others around it, one link per
 * connection whose two ends are nodes, and a mouse gesture that either
 * drags a node or pans the view.
 *
 * Node coordinates and the view transform are `real`s handed in by the
 * caller: the trigonometric placement, the fit-to-container scale and the
 * screen-to-world conversion are not part of this model.
 */
module MindGraph {
  import opened Js
  import opened Types
  import Seqs

  const BaseWidth := 160
  const BaseHeight := 90
  const CharsPerLine := 25
  const LineHeight := 20

  datatype Dimensions = Dimensions(width: int, height: int)

  /** `Math.ceil(len / 25)` for a non-negative length. */
  function LinesFor(len: nat): (c: nat)
    ensures len == 0 ==> c == 0
    ensures len > 0 ==> CharsPerLine * (c - 1) < len <= CharsPerLine * c
  {
    (len + CharsPerLine - 1) / CharsPerLine
  }

  /**
   * `getNodeDimensions`: a node is always 160 wide; it is 90 high for up to
   * two 25-character lines of text and 20 higher for every line beyond.
   */
  function NodeDimensions(len: nat): (r: Dimensions)
    ensures r.width == BaseWidth
    ensures r.height >= BaseHeight && (r.height - BaseHeight) % LineHeight == 0
    ensures r.height == BaseHeight <==> len <= 2 * CharsPerLine
    ensures r.height > BaseHeight ==>
              var extra := (r.height - BaseHeight) / LineHeight;
              CharsPerLine * (extra + 1) < len <= CharsPerLine * (extra + 2)
  {
    var lines := LinesFor(len);
    var extra := if lines > 2 then lines - 2 else 0;
    Dimensions(BaseWidth, BaseHeight + extra * LineHeight)
  }

  /** A longer text never makes a shorter node. */
  lemma NodeHeightMonotone(a: nat, b: nat)
    requires a <= b
    ensures NodeDimensions(a).height <= NodeDimensions(b).height
  {
  }

  // ---------------------------------------------------------------------
  // Degrees and the main node
  // ---------------------------------------------------------------------

  /** The endpoints in the order the count loop visits them: `from`, then `to`, connection by connection. */
  function EndpointIds(conns: seq<Connection>): (r: seq<string>)
    ensures |r| == 2 * |conns|
  {
    if conns == [] then []
    else
      var c := conns[|conns| - 1];
      EndpointIds(conns[..|conns| - 1]) + [c.source, c.target]
  }

  /** How often `id` is the `from` of a connection plus how often it is the `to` of one. */
  function Degree(conns: seq<Connection>, id: string): (n: nat)
    ensures n > 0 <==> id in EndpointIds(conns)
  {
    if conns == [] then 0
    else
      var init, c := conns[..|conns| - 1], conns[|conns| - 1];
      assert EndpointIds(conns) == EndpointIds(init) + [c.source] + [c.target];
      Degree(init, id) + (if c.source == id then 1 else 0) + (if c.target == id then 1 else 0)
  }

  /** Adding the next connection: two more endpoint ids, and one more for each end's degree. */
  lemma DegreeStep(conns: seq<Connection>, i: int, k: string)
    requires 0 <= i < |conns|
    ensures EndpointIds(conns[..i + 1]) == EndpointIds(conns[..i]) + [conns[i].source] + [conns[i].target]
    ensures Degree(conns[..i + 1], k) ==
              Degree(conns[..i], k) + (if conns[i].source == k then 1 else 0) + (if conns[i].target == k then 1 else 0)
  {
    assert conns[..i + 1][..i] == conns[..i];
  }

  /** After both ends of connection `i` are counted, the counts are the degrees over the first `i + 1` connections. */
  lemma CountsStep(conns: seq<Connection>, i: int, keys0: seq<string>,
                   counts0: map<string, int>, counts1: map<string, int>, counts2: map<string, int>)
    requires 0 <= i < |conns|
    requires keys0 == Seqs.Dedup(EndpointIds(conns[..i]))
    requires forall k :: k in counts0 <==> k in keys0
    requires forall k :: k in counts0 ==> counts0[k] == Degree(conns[..i], k)
    requires forall k :: k in counts1 ==> counts1[k] == (if k in counts0 then counts0[k] else 0) + (if k == conns[i].source then 1 else 0)
    requires forall k :: k in counts2 ==> counts2[k] == (if k in counts1 then counts1[k] else 0) + (if k == conns[i].target then 1 else 0)
    requires forall k :: k in counts1 <==> k in counts0 || k == conns[i].source
    ensures forall k :: k in counts2 ==> counts2[k] == Degree(conns[..i + 1], k)
  {
    forall k | k in counts2 ensures counts2[k] == Degree(conns[..i + 1], k) {
      DegreeStep(conns, i, k);
      if k !in counts0 {
        Seqs.DedupSpec(EndpointIds(conns[..i]));
      }
    }
  }

  /**
   * `connectionCounts.set(id, (connectionCounts.get(id) || 0) + 1)`: the
   * count of `id` goes up by one, and `id` joins the key order if it is new.
   */
  method Bump(keys: seq<string>, counts: map<string, int>, id: string) returns (keys': seq<string>, counts': map<string, int>)
    requires forall k :: k in counts <==> k in keys
    ensures keys' == if id in keys then keys else keys + [id]
    ensures forall k :: k in counts' <==> k in keys'
    ensures forall k :: k in counts' ==> counts'[k] == (if k in counts then counts[k] else 0) + (if k == id then 1 else 0)
  {
    var n := if id in counts then counts[id] else 0;
    keys' := if id in counts then keys else keys + [id];
    counts' := counts[id := n + 1];
  }

  /**
   * The count loop: a `Map` from each endpoint to its degree, whose entries
   * come out in the order the ids were first inserted. The map is modelled
   * as its key order plus its contents.
   */
  method CountDegrees(conns: seq<Connection>) returns (keys: seq<string>, counts: map<string, int>)
    ensures keys == Seqs.Dedup(EndpointIds(conns))
    ensures forall k :: k in counts <==> k in keys
    ensures forall k :: k in counts ==> counts[k] == Degree(conns, k)
  {
    keys, counts := [], map[];
    for i := 0 to |conns|
      invariant keys == Seqs.Dedup(EndpointIds(conns[..i]))
      invariant forall k :: k in counts <==> k in keys
      invariant forall k :: k in counts ==> counts[k] == Degree(conns[..i], k)
    {
      var c := conns[i];
      ghost var before, keys0, counts0 := EndpointIds(conns[..i]), keys, counts;
      DegreeStep(conns, i, c.source);
      Seqs.DedupSnoc(before, c.source);
      Seqs.DedupSnoc(before + [c.source], c.target);
      keys, counts := Bump(keys, counts, c.source);
      ghost var counts1 := counts;
      keys, counts := Bump(keys, counts, c.target);
      CountsStep(conns, i, keys0, counts0, counts1, counts);
    }
    assert conns[..|conns|] == conns;
  }

  /** The largest degree among `ids`, or -1 (the loop's starting `maxConnections`) for none. */
  function MaxDegree(conns: seq<Connection>, ids: seq<string>): (r: int)
    ensures r >= -1
    ensures forall i :: 0 <= i < |ids| ==> Degree(conns, ids[i]) <= r
  {
    if ids == [] then -1
    else
      var init := ids[..|ids| - 1];
      var m := MaxDegree(conns, init);
      var d := Degree(conns, ids[|ids| - 1]);
      assert forall i :: 0 <= i < |init| ==> ids[i] == init[i];
      if d > m then d else m
  }

  /** The first of `ids` whose degree is `d`. */
  function FirstWithDegree(conns: seq<Connection>, ids: seq<string>, d: int): (r: Option<string>)
    ensures r.Some? ==> r.value in ids && Degree(conns, r.value) == d
    ensures r.None? <==> forall i :: 0 <= i < |ids| ==> Degree(conns, ids[i]) != d
  {
    if ids == [] then None
    else if Degree(conns, ids[0]) == d then Some(ids[0])
    else FirstWithDegree(conns, ids[1..], d)
  }

  /** `annotations[0]?.id || null`: the first annotation's id, unless it is missing or empty. */
  function FirstAnnotationId(anns: seq<Annotation>): (r: Option<string>)
    ensures r.Some? <==> anns != [] && anns[0].id != ""
    ensures r.Some? ==> r.value == anns[0].id
  {
    if anns != [] && anns[0].id != "" then Some(anns[0].id) else None
  }

  /**
   * The main node's id: among the ids in the count map, the first (in
   * insertion order) of the largest degree; with no connections, the first
   * annotation's id.
   */
  function MainNode(anns: seq<Annotation>, conns: seq<Connection>): (r: Option<string>)
    ensures conns == [] ==> r == FirstAnnotationId(anns)
    ensures conns != [] ==> r.Some? && r.value in EndpointIds(conns)
  {
    var ids := Seqs.Dedup(EndpointIds(conns));
    Seqs.DedupSpec(EndpointIds(conns));
    if ids == [] then
      assert conns == [] by {
        if conns != [] {
          assert false;
        }
      }
      FirstAnnotationId(anns)
    else
      MaxDegreeAttained(conns, ids);
      FirstWithDegree(conns, ids, MaxDegree(conns, ids))
  }

  lemma MaxDegreeAttained(conns: seq<Connection>, ids: seq<string>)
    requires ids != []
    ensures exists i :: 0 <= i < |ids| && Degree(conns, ids[i]) == MaxDegree(conns, ids)
  {
    var init := ids[..|ids| - 1];
    if init != [] && MaxDegree(conns, init) >= Degree(conns, ids[|ids| - 1]) {
      MaxDegreeAttained(conns, init);
      var i :| 0 <= i < |init| && Degree(conns, init[i]) == MaxDegree(conns, init);
      assert ids[i] == init[i];
    } else {
      assert Degree(conns, ids[|ids| - 1]) == MaxDegree(conns, ids);
    }
  }

  /**
   * The main node is the first-inserted id of greatest degree: every id has
   * at most its degree, and every id inserted before it has strictly less.
   * With no connections it is the first annotation's id.
   */
  lemma MainNodeSpec(anns: seq<Annotation>, conns: seq<Connection>)
    ensures conns == [] ==> MainNode(anns, conns) == FirstAnnotationId(anns)
    ensures conns != [] ==>
              var main := MainNode(anns, conns);
              var ids := Seqs.Dedup(EndpointIds(conns));
              main.Some? && main.value in EndpointIds(conns)
              && (forall id :: Degree(conns, id) <= Degree(conns, main.value))
              && (forall i, j :: 0 <= i < j < |ids| && ids[j] == main.value ==> Degree(conns, ids[i]) < Degree(conns, ids[j]))
  {
    var ids := Seqs.Dedup(EndpointIds(conns));
    Seqs.DedupSpec(EndpointIds(conns));
    if conns == [] {
      assert ids == [];
    } else {
      assert EndpointIds(conns)[0] in ids;
      var max := MaxDegree(conns, ids);
      MaxDegreeAttained(conns, ids);
      var main := MainNode(anns, conns);
      assert main.Some?;
      forall id ensures Degree(conns, id) <= Degree(conns, main.value) {
        if Degree(conns, id) > 0 {
          var k :| 0 <= k < |ids| && ids[k] == id;
        }
      }
      forall i, j | 0 <= i < j < |ids| && ids[j] == main.value
        ensures Degree(conns, ids[i]) < Degree(conns, ids[j])
      {
        FirstWithDegreeIsFirst(conns, ids, max, i, j);
      }
    }
  }

  /** No id before the first one of degree `d` has degree `d`. */
  lemma {:induction false} FirstWithDegreeIsFirst(conns: seq<Connection>, ids: seq<string>, d: int, i: int, j: int)
    requires Seqs.Distinct(ids)
    requires 0 <= i < j < |ids|
    requires FirstWithDegree(conns, ids, d) == Some(ids[j])
    ensures Degree(conns, ids[i]) != d
  {
    if i > 0 && Degree(conns, ids[0]) != d {
      assert Seqs.Distinct(ids[1..]) by {
        forall p, q | 0 <= p < q < |ids[1..]| ensures ids[1..][p] != ids[1..][q] {
          assert ids[1..][p] == ids[p + 1] && ids[1..][q] == ids[q + 1];
        }
      }
      FirstWithDegreeIsFirst(conns, ids[1..], d, i - 1, j - 1);
    }
  }

  /** Appending an id does not change the first one of degree `d` once there is one. */
  lemma {:induction false} FirstWithDegreeSnoc(conns: seq<Connection>, ids: seq<string>, id: string, d: int)
    ensures FirstWithDegree(conns, ids, d).Some? ==> FirstWithDegree(conns, ids + [id], d) == FirstWithDegree(conns, ids, d)
    ensures FirstWithDegree(conns, ids, d).None? && Degree(conns, id) == d ==> FirstWithDegree(conns, ids + [id], d) == Some(id)
  {
    if ids == [] {
      assert ids + [id] == [id];
    } else {
      assert (ids + [id])[0] == ids[0] && (ids + [id])[1..] == ids[1..] + [id];
      FirstWithDegreeSnoc(conns, ids[1..], id, d);
    }
  }

  /**
   * The main-node loop as written: starting from the first annotation's id
   * and `maxConnections = -1`, it walks the count map's entries and takes an
   * id whenever its count is strictly greater.
   */
  method ChooseMain(anns: seq<Annotation>, conns: seq<Connection>) returns (main: Option<string>)
    ensures main == MainNode(anns, conns)
  {
    var keys, counts := CountDegrees(conns);
    main := ChooseFrom(anns, conns, keys, counts);
  }

  /** The loop over the count map's entries, in key order, each key's count being its degree. */
  method ChooseFrom(anns: seq<Annotation>, conns: seq<Connection>, keys: seq<string>, counts: map<string, int>)
    returns (main: Option<string>)
    requires forall k :: k in keys ==> k in counts && counts[k] == Degree(conns, k)
    ensures main == if keys == [] then FirstAnnotationId(anns) else FirstWithDegree(conns, keys, MaxDegree(conns, keys))
  {
    main := FirstAnnotationId(anns);
    var max := -1;
    for i := 0 to |keys|
      invariant max == MaxDegree(conns, keys[..i])
      invariant i == 0 ==> main == FirstAnnotationId(anns)
      invariant i > 0 ==> main == FirstWithDegree(conns, keys[..i], max)
    {
      var count := counts[keys[i]];
      ChooseStep(conns, keys, i, max, main);
      if count > max {
        max := count;
        main := Some(keys[i]);
      }
    }
    assert keys[..|keys|] == keys;
  }

  /** One pass of the main-node loop: a strictly greater count takes over, anything else leaves the choice. */
  lemma ChooseStep(conns: seq<Connection>, keys: seq<string>, i: int, max: int, main: Option<string>)
    requires 0 <= i < |keys|
    requires max == MaxDegree(conns, keys[..i])
    requires i > 0 ==> main == FirstWithDegree(conns, keys[..i], max)
    ensures var d := Degree(conns, keys[i]);
            MaxDegree(conns, keys[..i + 1]) == (if d > max then d else max)
            && FirstWithDegree(conns, keys[..i + 1], MaxDegree(conns, keys[..i + 1])) == if d > max then Some(keys[i]) else main
  {
    var ks, k := keys[..i], keys[i];
    var d := Degree(conns, k);
    assert keys[..i + 1] == ks + [k];
    assert (ks + [k])[..|ks|] == ks;
    FirstWithDegreeSnoc(conns, ks, k, max);
    FirstWithDegreeSnoc(conns, ks, k, d);
    if ks != [] {
      MaxDegreeAttained(conns, ks);
    }
  }

  // ---------------------------------------------------------------------
  // Nodes
  // ---------------------------------------------------------------------

  datatype Point = Point(x: real, y: real)

  const Origin := Point(0.0, 0.0)

  /** `a - b`, coordinate by coordinate. */
  function Minus(a: Point, b: Point): Point
  {
    Point(a.x - b.x, a.y - b.y)
  }

  /**
   * A node of the graph: its annotation, placed at `at`, sized by its
   * annotation's text. The velocities the source keeps are always zero and
   * are not modelled.
   */
  datatype GraphNode = GraphNode(id: string, at: Point, width: int, height: int, annotation: Annotation)

  /** The node for annotation `a` at point `p`. */
  function NodeFor(a: Annotation, p: Point): (n: GraphNode)
    ensures n.id == a.id && n.annotation == a && n.at == p
    ensures n.width == BaseWidth && n.height == NodeDimensions(|a.text|).height
  {
    var dims := NodeDimensions(|a.text|);
    GraphNode(a.id, p, dims.width, dims.height, a)
  }

  /** `annotations.find(ann => ann.id === mainNodeId)`; a `null` id matches nothing. */
  function FindAnnotation(anns: seq<Annotation>, id: Option<string>): (r: Option<Annotation>)
    ensures r.Some? ==> r.value in anns && Some(r.value.id) == id
    ensures r.None? <==> forall a :: a in anns ==> Some(a.id) != id
  {
    if anns == [] then None
    else if Some(anns[0].id) == id then Some(anns[0])
    else FindAnnotation(anns[1..], id)
  }

  /** The filter test `ann.id !== mainNodeId`. */
  function IdOtherThan(main: Option<string>): Annotation -> bool
  {
    (a: Annotation) => Some(a.id) != main
  }

  /** The sub-nodes' annotations: all except those with the main id, in list order. */
  function SubNodeAnnotations(anns: seq<Annotation>, main: Option<string>): (r: seq<Annotation>)
    ensures forall a :: a in r <==> a in anns && Some(a.id) != main
  {
    Seqs.FilterMembers(anns, IdOtherThan(main));
    Seqs.Filter(anns, IdOtherThan(main))
  }

  /** The sub-node part of the layout: one node per sub-node annotation, placed by index. */
  function SubNodes(subs: seq<Annotation>, place: (nat, nat) -> Point): (r: seq<GraphNode>)
    ensures |r| == |subs|
    ensures forall k :: 0 <= k < |subs| ==> r[k] == NodeFor(subs[k], place(k, |subs|))
  {
    seq(|subs|, i requires 0 <= i < |subs| => NodeFor(subs[i], place(i, |subs|)))
  }

  /** The main node, at the origin, when some annotation has the main id. */
  function MainNodes(anns: seq<Annotation>, main: Option<string>): (r: seq<GraphNode>)
    ensures |r| <= 1
    ensures r != [] <==> exists a :: a in anns && Some(a.id) == main
    ensures r != [] ==> r[0].annotation in anns && Some(r[0].id) == main && r[0].at == Origin
  {
    match FindAnnotation(anns, main)
    case Some(m) => [NodeFor(m, Origin)]
    case None => []
  }

  /**
   * The new node list: the main annotation's node at the origin if the main
   * id is an annotation's, then one node per sub-node annotation, the
   * `index`-th of `count` placed at `place(index, count)`.
   */
  function LayoutNodes(anns: seq<Annotation>, main: Option<string>, place: (nat, nat) -> Point): (r: seq<GraphNode>)
    ensures |r| <= |anns|
    ensures r == [] <==> anns == []
  {
    var head := MainNodes(anns, main);
    var subs := SubNodeAnnotations(anns, main);
    assert |head| + |subs| <= |anns| && (anns != [] ==> head != [] || subs != []) by {
      if head != [] {
        var m :| m in anns && Some(m.id) == main;
        Seqs.FilterDrops(anns, IdOtherThan(main), m);
      } else if anns != [] {
        assert anns[0] in subs;
      }
    }
    head + SubNodes(subs, place)
  }

  /**
   * Building `newNodes` by `push`: the main node first if there is one, then
   * the sub-nodes in the order of `forEach`.
   */
  method Layout(anns: seq<Annotation>, main: Option<string>, place: (nat, nat) -> Point) returns (nodes: seq<GraphNode>)
    ensures nodes == LayoutNodes(anns, main, place)
  {
    var mainAnn := FindAnnotation(anns, main);
    var subs := SubNodeAnnotations(anns, main);
    nodes := [];
    if mainAnn.Some? {
      nodes := nodes + [NodeFor(mainAnn.value, Origin)];
    }
    var head := nodes;
    assert head == MainNodes(anns, main);
    for index := 0 to |subs|
      invariant nodes == head + SubNodes(subs, place)[..index]
    {
      assert SubNodes(subs, place)[..index + 1] == SubNodes(subs, place)[..index] + [NodeFor(subs[index], place(index, |subs|))];
      nodes := nodes + [NodeFor(subs[index], place(index, |subs|))];
    }
    assert SubNodes(subs, place)[..|subs|] == SubNodes(subs, place);
  }

  /** Every node shows an annotation of the list, under that annotation's id, 160 wide. */
  lemma LayoutNodesShowAnnotations(anns: seq<Annotation>, main: Option<string>, place: (nat, nat) -> Point)
    ensures forall n :: n in LayoutNodes(anns, main, place) ==>
              n.annotation in anns && n.id == n.annotation.id && n.width == BaseWidth
  {
    var subs := SubNodeAnnotations(anns, main);
    Seqs.FilterMembers(anns, IdOtherThan(main));
    var head, tail := MainNodes(anns, main), SubNodes(subs, place);
    forall n: GraphNode | n in head + tail ensures n.annotation in anns && n.id == n.annotation.id && n.width == BaseWidth {
      if n in tail {
        var k :| 0 <= k < |tail| && tail[k] == n;
        assert subs[k] in subs;
      }
    }
  }

  /**
   * The main node comes first, at the origin, exactly when some annotation
   * has the main id; no later node carries the main id.
   */
  lemma LayoutMainFirst(anns: seq<Annotation>, main: Option<string>, place: (nat, nat) -> Point)
    ensures var nodes := LayoutNodes(anns, main, place);
            ((exists a :: a in anns && Some(a.id) == main) <==> nodes != [] && Some(nodes[0].id) == main)
            && (nodes != [] && Some(nodes[0].id) == main ==> nodes[0].at == Origin)
            && (forall i :: 0 < i < |nodes| ==> Some(nodes[i].id) != main)
  {
    var subs := SubNodeAnnotations(anns, main);
    var head, tail := MainNodes(anns, main), SubNodes(subs, place);
    var nodes := head + tail;
    forall k | 0 <= k < |tail| ensures Some(tail[k].id) != main {
      assert IdOtherThan(main)(subs[k]);
    }
    forall i | 0 < i < |nodes| ensures Some(nodes[i].id) != main {
      assert nodes[i] == tail[i - |head|];
    }
    if head == [] && nodes != [] {
      assert nodes[0] == tail[0];
    }
  }

  /** Every annotation whose id is not the main id has a node. */
  lemma LayoutCoversOthers(anns: seq<Annotation>, main: Option<string>, place: (nat, nat) -> Point)
    ensures forall a :: a in anns && Some(a.id) != main ==>
              exists n :: n in LayoutNodes(anns, main, place) && n.annotation == a
  {
    var subs := SubNodeAnnotations(anns, main);
    Seqs.FilterMembers(anns, IdOtherThan(main));
    var head, tail := MainNodes(anns, main), SubNodes(subs, place);
    forall a | a in anns && Some(a.id) != main ensures exists n: GraphNode :: n in head + tail && n.annotation == a {
      var k :| 0 <= k < |subs| && subs[k] == a;
      assert tail[k] in head + tail;
    }
  }

  /** When no annotation has the main id, every annotation is a sub-node, in list order. */
  lemma LayoutWithoutMain(anns: seq<Annotation>, main: Option<string>, place: (nat, nat) -> Point)
    requires forall a :: a in anns ==> Some(a.id) != main
    ensures var nodes := LayoutNodes(anns, main, place);
            |nodes| == |anns| && forall i :: 0 <= i < |anns| ==> nodes[i].annotation == anns[i]
  {
    assert MainNodes(anns, main) == [];
    assert SubNodeAnnotations(anns, main) == anns by {
      forall a | a in anns ensures IdOtherThan(main)(a) { }
      Seqs.FilterAll(anns, IdOtherThan(main));
    }
    var tail := SubNodes(anns, place);
    assert LayoutNodes(anns, main, place) == tail by {
      assert [] + tail == tail;
    }
  }

  // ---------------------------------------------------------------------
  // Links
  // ---------------------------------------------------------------------

  datatype Link = Link(source: GraphNode, target: GraphNode, typeName: string)

  /** `nodes.find(n => n.id === id)`. */
  function FindNode(nodes: seq<GraphNode>, id: string): (r: Option<GraphNode>)
    ensures r.Some? ==> r.value in nodes && r.value.id == id
    ensures r.None? <==> forall n :: n in nodes ==> n.id != id
  {
    if nodes == [] then None
    else if nodes[0].id == id then Some(nodes[0])
    else FindNode(nodes[1..], id)
  }

  /** The link a connection maps to, or `null` when one of its ends is not a node. */
  function LinkFor(nodes: seq<GraphNode>, c: Connection): (r: Option<Link>)
    ensures r.Some? <==> FindNode(nodes, c.source).Some? && FindNode(nodes, c.target).Some?
    ensures r.Some? ==> r.value.source.id == c.source && r.value.target.id == c.target && r.value.typeName == c.typeName
  {
    match (FindNode(nodes, c.source), FindNode(nodes, c.target))
    case (Some(s), Some(t)) => Some(Link(s, t, c.typeName))
    case _ => None
  }

  /** `links`: the connections mapped to links, without the `null`s. */
  function Links(nodes: seq<GraphNode>, conns: seq<Connection>): (r: seq<Link>)
    ensures |r| <= |conns|
    ensures forall l :: l in r ==> l.source in nodes && l.target in nodes
  {
    if conns == [] then []
    else
      LinkSeq(nodes, conns[0]) + Links(nodes, conns[1..])
  }

  /** The links one connection contributes: its link, or none. */
  function LinkSeq(nodes: seq<GraphNode>, c: Connection): seq<Link>
  {
    match LinkFor(nodes, c)
    case Some(l) => [l]
    case None => []
  }

  lemma {:induction false} LinksConcat(nodes: seq<GraphNode>, a: seq<Connection>, b: seq<Connection>)
    ensures Links(nodes, a + b) == Links(nodes, a) + Links(nodes, b)
  {
    if a == [] {
      assert a + b == b;
    } else {
      var c, rest := a[0], a[1..];
      assert (a + b)[0] == c && (a + b)[1..] == rest + b;
      calc {
        Links(nodes, a + b);
        LinkSeq(nodes, c) + Links(nodes, rest + b);
        { LinksConcat(nodes, rest, b); }
        LinkSeq(nodes, c) + (Links(nodes, rest) + Links(nodes, b));
        (LinkSeq(nodes, c) + Links(nodes, rest)) + Links(nodes, b);
        Links(nodes, a) + Links(nodes, b);
      }
    }
  }

  /** Dropping a connection with an end that is not a node leaves the links as they were, in order. */
  lemma LinksSkipDangling(nodes: seq<GraphNode>, conns: seq<Connection>, i: int)
    requires 0 <= i < |conns|
    requires FindNode(nodes, conns[i].source).None? || FindNode(nodes, conns[i].target).None?
    ensures Links(nodes, conns) == Links(nodes, conns[..i] + conns[i + 1..])
  {
    var pre, c, post := conns[..i], conns[i], conns[i + 1..];
    assert conns == pre + ([c] + post);
    LinksConcat(nodes, pre, [c] + post);
    LinksConcat(nodes, [c], post);
    LinksConcat(nodes, pre, post);
  }

  /** Both ends of `c` are nodes. */
  predicate Joinable(nodes: seq<GraphNode>, c: Connection)
  {
    FindNode(nodes, c.source).Some? && FindNode(nodes, c.target).Some?
  }

  /** When every connection joins two nodes, there is one link per connection, in order. */
  lemma {:induction false} LinksAllPresent(nodes: seq<GraphNode>, conns: seq<Connection>)
    requires forall i :: 0 <= i < |conns| ==> Joinable(nodes, conns[i])
    ensures |Links(nodes, conns)| == |conns|
    ensures forall i :: 0 <= i < |conns| ==> LinkFor(nodes, conns[i]) == Some(Links(nodes, conns)[i])
  {
    if conns != [] {
      var c, rest := conns[0], conns[1..];
      assert Joinable(nodes, c);
      forall i | 0 <= i < |rest| ensures Joinable(nodes, rest[i]) {
        assert rest[i] == conns[i + 1];
      }
      LinksAllPresent(nodes, rest);
      var head, tail := LinkFor(nodes, c).value, Links(nodes, rest);
      var all := Links(nodes, conns);
      assert all == [head] + tail by {
        assert LinkSeq(nodes, c) == [head];
      }
      forall i | 0 < i < |conns| ensures LinkFor(nodes, conns[i]) == Some(all[i]) {
        assert all[i] == tail[i - 1];
        assert rest[i - 1] == conns[i];
      }
    }
  }

  /**
   * A drag step: the node with the dragged id moves to `p`; every other
   * node, and everything but the position, stays as it was.
   */
  function MoveNode(nodes: seq<GraphNode>, id: string, p: Point): (r: seq<GraphNode>)
    ensures |r| == |nodes|
    ensures forall i :: 0 <= i < |nodes| ==> r[i] == (if nodes[i].id == id then nodes[i].(at := p) else nodes[i])
  {
    seq(|nodes|, i requires 0 <= i < |nodes| => if nodes[i].id == id then nodes[i].(at := p) else nodes[i])
  }

  /** Moving a node finds the same nodes by id, with the new position for the moved one. */
  lemma {:induction false} MoveNodeFind(nodes: seq<GraphNode>, id: string, p: Point, x: string)
    ensures var found := FindNode(MoveNode(nodes, id, p), x);
            found.Some? == FindNode(nodes, x).Some?
            && (found.Some? ==> found.value == if x == id then FindNode(nodes, x).value.(at := p) else FindNode(nodes, x).value)
  {
    if nodes != [] {
      assert MoveNode(nodes, id, p)[1..] == MoveNode(nodes[1..], id, p);
      MoveNodeFind(nodes[1..], id, p, x);
    }
  }

  /**
   * Dragging keeps the links: the same number, between the same ids with the
   * same types, in the same order.
   */
  lemma {:induction false} MoveNodeKeepsLinks(nodes: seq<GraphNode>, id: string, p: Point, conns: seq<Connection>)
    ensures SameEnds(Links(nodes, conns), Links(MoveNode(nodes, id, p), conns))
  {
    if conns != [] {
      var moved, c := MoveNode(nodes, id, p), conns[0];
      MoveNodeFind(nodes, id, p, c.source);
      MoveNodeFind(nodes, id, p, c.target);
      var before, after := LinkSeq(nodes, c), LinkSeq(moved, c);
      assert SameEnds(before, after);
      MoveNodeKeepsLinks(nodes, id, p, conns[1..]);
      SameEndsConcat(before, after, Links(nodes, conns[1..]), Links(moved, conns[1..]));
    }
  }

  /** Two link lists join the same ids with the same type labels, position by position. */
  ghost predicate SameEnds(a: seq<Link>, b: seq<Link>)
  {
    |a| == |b| && forall i :: 0 <= i < |a| ==>
      a[i].source.id == b[i].source.id && a[i].target.id == b[i].target.id && a[i].typeName == b[i].typeName
  }

  lemma SameEndsConcat(a1: seq<Link>, b1: seq<Link>, a2: seq<Link>, b2: seq<Link>)
    requires SameEnds(a1, b1) && SameEnds(a2, b2)
    ensures SameEnds(a1 + a2, b1 + b2)
  {
    forall i | |a1| <= i < |a1| + |a2| ensures (a1 + a2)[i] == a2[i - |a1|] && (b1 + b2)[i] == b2[i - |a1|] { }
  }

  // ---------------------------------------------------------------------
  // The view and its mouse gesture
  // ---------------------------------------------------------------------

  /** The node being dragged and where the cursor grabbed it, relative to its position. */
  datatype DragInfo = DragInfo(id: string, offset: Point)

  datatype ViewTransform = ViewTransform(scale: real, translateX: real, translateY: real)

  const InitialView := ViewTransform(1.0, 0.0, 0.0)

  /** A snapshot of every field of a `GraphView`. */
  datatype ViewState = ViewState(
    nodes: seq<GraphNode>,
    dragged: Option<DragInfo>,
    isPanning: bool,
    panStart: Point,
    view: ViewTransform)

  class GraphView {
    var nodes: seq<GraphNode>
    var dragged: Option<DragInfo>
    var isPanning: bool
    var panStart: Point
    var view: ViewTransform

    function State(): ViewState
      reads this
    {
      ViewState(nodes, dragged, isPanning, panStart, view)
    }

    /** No drag and no pan is going on. */
    predicate Idle()
      reads this
    {
      dragged.None? && !isPanning
    }

    /** A drag in progress names a node of the graph. */
    ghost predicate DragOnNode()
      reads this
    {
      dragged.Some? ==> exists n :: n in nodes && n.id == dragged.value.id
    }

    constructor()
      ensures Idle() && DragOnNode()
      ensures State() == ViewState([], None, false, Origin, InitialView)
    {
      nodes, dragged, isPanning, panStart, view := [], None, false, Origin, InitialView;
    }

    /**
     * The layout effect: nothing happens without a mounted container or
     * without annotations; otherwise the nodes are laid out around the main
     * node, and the view takes the fitted transform `fit` when the container
     * has a size.
     */
    method Relayout(anns: seq<Annotation>, conns: seq<Connection>, mounted: bool,
                    place: (nat, nat) -> Point, fit: Option<ViewTransform>)
      modifies this
      ensures !mounted || anns == [] ==> State() == old(State())
      ensures mounted && anns != [] ==>
                State() == old(State()).(nodes := LayoutNodes(anns, MainNode(anns, conns), place),
                                         view := if fit.Some? then fit.value else old(view))
    {
      if !mounted || |anns| == 0 {
        return;
      }
      var main := ChooseMain(anns, conns);
      nodes := Layout(anns, main, place);
      if fit.Some? {
        view := fit.value;
      }
    }

    /**
     * `handleMouseDown`. A press on the node with id `target` (the closest
     * element carrying a node id) starts dragging it, remembering where it
     * was grabbed (`cursor` is the press in graph coordinates), provided
     * the node exists and the container is mounted. A press elsewhere starts
     * panning from the current translation (`client` is the press on
     * screen).
     */
    method MouseDown(target: Option<string>, mounted: bool, cursor: Point, client: Point)
      modifies this
      ensures target.Some? ==>
                var node := FindNode(old(nodes), target.value);
                State() == if node.Some? && mounted
                           then old(State()).(dragged := Some(DragInfo(target.value, Minus(cursor, node.value.at))))
                           else old(State())
      ensures target.None? ==>
                State() == old(State()).(isPanning := true,
                                         panStart := Point(client.x - old(view).translateX, client.y - old(view).translateY))
      ensures old(Idle()) ==> !(dragged.Some? && isPanning)
      ensures old(DragOnNode()) ==> DragOnNode()
    {
      if target.Some? {
        var node := FindNode(nodes, target.value);
        if node.Some? && mounted {
          dragged := Some(DragInfo(target.value, Minus(cursor, node.value.at)));
        }
      } else {
        isPanning := true;
        panStart := Point(client.x - view.translateX, client.y - view.translateY);
      }
    }

    /**
     * `handleMouseMove`: a drag moves the dragged node so that it keeps the
     * grab offset to `cursor`; otherwise a pan sets the translation so that
     * the pan start stays under `client`.
     */
    method MouseMove(mounted: bool, cursor: Point, client: Point)
      modifies this
      ensures dragged.Some? && mounted ==>
                State() == old(State()).(nodes := MoveNode(old(nodes), dragged.value.id, Minus(cursor, dragged.value.offset)))
      ensures !(dragged.Some? && mounted) && isPanning ==>
                State() == old(State()).(view := old(view).(translateX := client.x - panStart.x, translateY := client.y - panStart.y))
      ensures !(dragged.Some? && mounted) && !isPanning ==> State() == old(State())
      ensures old(DragOnNode()) ==> DragOnNode()
    {
      if dragged.Some? && mounted {
        var d := dragged.value;
        var moved := MoveNode(nodes, d.id, Minus(cursor, d.offset));
        forall n | n in nodes && n.id == d.id ensures exists m :: m in moved && m.id == d.id {
          var k :| 0 <= k < |nodes| && nodes[k] == n;
          assert moved[k].id == d.id;
        }
        nodes := moved;
      } else if isPanning {
        view := view.(translateX := client.x - panStart.x, translateY := client.y - panStart.y);
      }
    }

    /** `handleMouseUp` (also on leaving the view): whichever gesture is active ends. */
    method MouseUp()
      modifies this
      ensures Idle() && DragOnNode()
      ensures State() == old(State()).(dragged := None, isPanning := false)
    {
      if dragged.Some? {
        dragged := None;
      }
      if isPanning {
        isPanning := false;
      }
    }
  }
}
