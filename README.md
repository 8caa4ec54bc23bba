# A Dafny model of the reading-annotation editors

The repository holds two React editors for annotating a text.

- **The root editor** (`App.tsx`, `components/`). It transcribes an uploaded
  image into text. Its annotations are highlights or symbols over spans of
  that text, and they may not overlap.
- **The docs/ editor** (`docs/App.tsx`, `docs/components/`). Annotations may
  overlap. It adds typed connections between annotations, a registry of
  connection types, and a mind graph that lays the annotations out around
  the most connected one.

Both editors save a session to a file and load it back.

This project models the state and the logic of both editors:

- the annotation store, which sorts by `start` and refuses overlaps in the
  root editor;
- the session handlers of both `App` components, as classes whose methods
  update the fields in place;
- the connection rules: no self-connection, at most one connection per pair,
  and the deletion cascades;
- the connection-type registry and its manager;
- the save/load validation and defaults;
- both text renderers, including how the overlapping render cuts the text
  into segments and nests marks;
- the selection-offset walk;
- the sidebar status and enabled states;
- the mind graph: degree count, main-node choice, layout, links and the
  drag/pan gesture.

Modules, in dependency order:

- `Js` (js.dfy): the JavaScript string built-ins the code relies on: `substring`, `trim`, `toLowerCase`, truthiness of `string | null`
- `Seqs` (seqs.dfy): `filter`, and the first-occurrence order of a `Set`
- `StableSort` (stable_sort.dfy): `Array.prototype.sort` with a numeric comparator: sorted, a permutation, stable
- `Types` (types.dfy): docs/types.ts (types.ts is a subset of it)
- `SpanStore` (span_store.dfy): the annotation list transforms shared by both editors
- `ConnectionGraph` (connection_graph.dfy): connections, the pending connection, the connection-type registry
- `SessionFile` (session_file.dfy): the saved record and the load step of both editors
- `DocsApp` (docs_app.dfy): the `App` of docs/ as a `Session` class
- `RootApp` (root_app.dfy): the `App` of the root editor as a `Session` class
- `Partition` (partition.dfy): breakpoints, segments and covering annotations of the docs/ renderer
- `OverlapRender` (overlap_render.dfy): the docs/ renderer's nested marks, `getOffset`, `handleMouseUp`
- `SequentialRender` (sequential_render.dfy): the root renderer and its `handleMouseUp`
- `MindGraph` (mind_graph.dfy): `MindGraphView`: node sizes, degrees, main node, layout, links, the `GraphView` gesture class
- `Sidebar` (sidebar.dfy): both `AnnotationSidebar`s and the `ConnectionTypeManager` class

Several facts are proved about the model as a whole:

- Loading a saved session restores it.
- Every handler keeps the annotation list sorted by `start`.
- In the root editor, the store keeps the annotations pairwise disjoint.
- Every connection handler keeps the connection list free of
  self-connections and duplicate pairs.
- Both renderers spell the text exactly, each under its own conditions:
  - the overlapping render of docs/ needs every annotation inside the text
    (`RenderShowsText`);
  - the one-pass render of the root editor needs the annotations sorted by
    `start`, pairwise disjoint, with non-empty spans that cache the text
    under them (`RenderedSpellsText`). Otherwise it can repeat text: over
    `0123456789` the spans [3,8), [3,3) and [9,10) show `34567` twice.
- The overlapping render nests the narrowest annotation innermost.
- A selection offset is the boundary's position in the text that the text
  nodes spell.
- The main node of the mind graph is the first-inserted id of maximal
  degree.
- Dragging a node keeps every link.

Ids that the source draws from `Date.now()` and `Math.random()` are
parameters (`freshId`). So are:

- the DOM facts a handler reads, such as whether a container is mounted or
  a selection is collapsed;
- node coordinates in the graph.

## Model

| member | source | states |
|---|---|---|
| `Js.Clamp` | docs/App.tsx:70 | an index given to `substring` is clamped into `[0, length]` |
| `Js.Substring` | docs/App.tsx:70 | `substring` with indices in order and in range is the slice between them; with the indices swapped it is the same slice; it is never longer than the string |
| `Js.LeadingWhitespace` | docs/components/AnnotationSidebar.tsx:48 | the whitespace prefix that `trim` drops: all whitespace, and followed by a non-whitespace character or the end |
| `Js.TrailingWhitespace` | docs/components/AnnotationSidebar.tsx:48 | the whitespace suffix that `trim` drops, likewise |
| `Js.Trim` | docs/components/AnnotationSidebar.tsx:48 | `trim` is empty exactly for an all-whitespace string; otherwise it is the contiguous slice after the leading whitespace, everything after it is whitespace, and it neither starts nor ends with whitespace |
| `Js.TrimIdempotent` | docs/components/AnnotationSidebar.tsx:48-49 | trimming an already trimmed label changes nothing |
| `Js.TrimUnchanged` | docs/components/AnnotationSidebar.tsx:62 | a string without whitespace at either end is its own trim |
| `Js.LowerChar` | docs/components/AnnotationSidebar.tsx:48 | `toLowerCase` on one character: A–Z move to a–z, everything else stays |
| `Js.ToLower` | docs/components/AnnotationSidebar.tsx:48 | lower-casing keeps the length, lowers character by character, and leaves no upper-case letter |
| `Seqs.Filter` | docs/App.tsx:88 | `filter` returns no more elements than it was given, all of them passing the test |
| `Seqs.FilterMembers` | docs/App.tsx:88-89 | a filtered list holds exactly the elements of the list that pass the test |
| `Seqs.FilterSubMultiset` | docs/App.tsx:88 | a filter keeps each element at most as often as the list holds it |
| `Seqs.FilterDrops` | docs/App.tsx:88 | a filter that rejects an element of the list returns a shorter list |
| `Seqs.FilterSingleton` | docs/App.tsx:88 | filtering one element keeps it exactly when it passes |
| `Seqs.FilterConcat` | docs/App.tsx:88 | filtering distributes over concatenation, so order is preserved |
| `Seqs.FilterAll` | docs/App.tsx:88 | a filter that every element passes returns the list unchanged |
| `Seqs.FilterPairwise` | docs/App.tsx:88 | a relation that holds between every earlier and later pair (sortedness, disjointness) still holds after a filter |
| `Seqs.DedupSpec` | docs/components/TextDisplay.tsx:182-186 | a `Set` built by insertion holds each inserted value exactly once |
| `StableSort.InsertBy` | docs/App.tsx:76 | inserting into a sorted list adds exactly one element |
| `StableSort.SortBy` | docs/App.tsx:76 | sorting keeps the length |
| `StableSort.InsertByPermutes` | docs/App.tsx:76 | insertion adds the element and loses none |
| `StableSort.SortByPermutes` | docs/App.tsx:76 | `sort` is a permutation of its input |
| `StableSort.InsertBySorted` | docs/App.tsx:76 | inserting into a sorted list keeps it sorted |
| `StableSort.SortBySorted` | docs/App.tsx:76 | the result of `sort((a, b) => a.start - b.start)` is ordered by the key |
| `StableSort.SortByOfSorted` | docs/App.tsx:76 | sorting an already sorted list returns it unchanged |
| `StableSort.SortByAppend` | docs/App.tsx:76 | sorting a list with one element appended is inserting that element into the sorted list |
| `StableSort.InsertByPosition` | docs/App.tsx:76 | the inserted element lands after every element with a key no larger and before every element with a larger key |
| `StableSort.WithKey` | docs/App.tsx:76 | the elements with a given key, in order |
| `StableSort.InsertByStable` | docs/App.tsx:76 | insertion keeps the relative order of elements with equal keys, with the new one last among them |
| `StableSort.SortByStable` | docs/App.tsx:76 | `sort` is stable: elements with equal keys keep their relative order |
| `Types.ColorName` | docs/types.ts:1-6 | the highlight values are exactly pink, blue, green and yellow |
| `Types.SymbolGlyph` | docs/types.ts:8-13 | the symbol values are exactly `?`, `!`, `O` and `*` |
| `Types.ParseValue` | docs/types.ts:16 | exactly the eight enumeration strings name a value, and each names the value whose string it is |
| `Types.ValueTextRoundTrip` | docs/types.ts:1-16 | every value reads back from its own string, so no two values share a string |
| `SpanStore.SortByStart` | docs/App.tsx:76 | sorting by `start` keeps the number of annotations |
| `SpanStore.SortByStartSpec` | docs/App.tsx:219 | the loaded annotations are sorted by `start`, are a permutation of the file's, and are the file's list if it was sorted already |
| `SpanStore.NewAnnotation` | docs/App.tsx:66-74 | the new annotation has the fresh id, the selected span, the chosen type and value, an empty note, and caches the text under a span inside the text |
| `SpanStore.WithAnnotation` | docs/App.tsx:76 | adding grows the list by exactly one |
| `SpanStore.WithAnnotationSpec` | docs/App.tsx:76 | after an add the list is sorted by `start` and holds the old annotations plus the new one |
| `SpanStore.WithAnnotationPosition` | App.tsx:62 | into a sorted list, an add splices the new annotation in after every annotation starting no later and before every one starting later, leaving the others in order |
| `SpanStore.Overlaps` | App.tsx:53 | the test `start < ann.end && end > ann.start` holds whenever the two spans share a position, and for non-empty spans only then: they share the later start |
| `SpanStore.AddDisjoint` | App.tsx:52-62 | an add is refused exactly when the new span intersects an existing one (`start < ann.end && end > ann.start`); an accepted add holds the old annotations plus the new one, as a multiset, sorted by `start` |
| `SpanStore.InsertKeepsNonOverlapping` | App.tsx:52-60 | splicing in an annotation that intersects none keeps the list pairwise disjoint |
| `SpanStore.AddDisjointKeepsInvariant` | App.tsx:51-63 | an accepted add keeps the root editor's list sorted and pairwise disjoint |
| `SpanStore.UpdateNote` | docs/App.tsx:81-85 | only the notes of annotations with that id change, to the new note; sortedness and disjointness survive |
| `SpanStore.RemoveAnnotation` | docs/App.tsx:88 | after a delete the list holds exactly the old annotations with a different id |
| `SpanStore.RemoveAnnotationSpec` | App.tsx:72-73 | a delete keeps the list sorted and disjoint, and an unknown id leaves it unchanged |
| `ConnectionGraph.IsPending` | docs/App.tsx:128 | a connection is pending exactly when its source is a non-empty id; the cleared state is not pending |
| `ConnectionGraph.UniquePairsBothWays` | docs/App.tsx:105-109 | in a list with unique pairs, no connection joins the endpoints of another in either direction |
| `ConnectionGraph.Complete` | docs/App.tsx:102-125 | completing is ignored exactly without a source or a type, or on the source itself; it is a duplicate exactly when the pair is already joined in either direction; otherwise it creates the connection from the source to the target with the pending type and the fresh id |
| `ConnectionGraph.CompleteKeepsWellFormed` | docs/App.tsx:103-123 | a created connection keeps the list free of self-connections and duplicate pairs |
| `ConnectionGraph.DetachAnnotation` | docs/App.tsx:89 | deleting an annotation keeps exactly the connections neither from nor to it |
| `ConnectionGraph.DropTypeName` | docs/App.tsx:164 | deleting a type keeps exactly the connections with another type label |
| `ConnectionGraph.FilterKeepsWellFormed` | docs/App.tsx:89 | any filter of a well-formed connection list is well formed |
| `ConnectionGraph.CascadesKeepWellFormed` | docs/App.tsx:159-165 | both cascades keep the connections well formed, and remove nothing when no connection is affected |
| `ConnectionGraph.FindType` | docs/App.tsx:160-161 | the lookup finds nothing exactly when no type has that id, and otherwise the first type of the list with that id |
| `ConnectionGraph.RemoveTypeId` | docs/App.tsx:163 | deleting a type keeps exactly the types with another id |
| `ConnectionGraph.AddType` | docs/components/AnnotationSidebar.tsx:47-53 | an add is refused exactly when the trimmed label is empty or equals an existing label ignoring case; otherwise `{id, label: trimmed}` is appended and the old list is its prefix |
| `ConnectionGraph.AddTypeKeepsLabelsDistinct` | docs/components/AnnotationSidebar.tsx:48-50 | an accepted add keeps the labels distinct ignoring case, and the added label is non-empty and trimmed |
| `ConnectionGraph.RenameType` | docs/components/AnnotationSidebar.tsx:60-66 | a save-edit does nothing without a truthy editing id or with a blank label; otherwise the list keeps its length and ids, and only types with the edited id get the trimmed label |
| `ConnectionGraph.RenameMayDuplicateLabel` | docs/components/AnnotationSidebar.tsx:60-63 | an edit does not check uniqueness: in a registry of the distinct labels `cause` and `effect`, renaming `cause` to `Effect` leaves two labels equal ignoring case |
| `SessionFile.Load` | docs/App.tsx:212-235 | a file loads exactly when it parsed, its `text` is truthy and its `annotations` are present; the annotations come back sorted by `start` as a permutation; missing connections become none and missing types the five defaults; a refused file yields the load error message |
| `SessionFile.Save` | docs/App.tsx:193-195 | nothing is written while there are no annotations; otherwise text, annotations, connections and connection types are all written |
| `SessionFile.SaveSimple` | App.tsx:79-81 | nothing is written while there are no annotations; otherwise text and annotations only |
| `SessionFile.SaveLoadRoundTrip` | docs/App.tsx:193-227 | saving a session with text and sorted annotations and loading the file gives back the same text, annotations, connections and types |
| `SessionFile.SimpleFileLoadsWithDefaults` | docs/App.tsx:217-227 | a file of the root editor loads into docs/ with no connections and the default types |
| `SessionFile.EmptyTextDoesNotLoad` | docs/App.tsx:217 | a session saved with empty text is refused on load |
| `DocsApp.Session.constructor` | docs/App.tsx:22-42 | the initial state: no text, no annotations or connections, the five default types in order, nothing pending |
| `DocsApp.Session.ShowsMainView` | docs/App.tsx:257 | the main view never shows together with the error panel |
| `DocsApp.Session.ShowsTextEntry` | docs/App.tsx:256-257 | the text entry shows exactly when there is no error and the main view does not, so exactly one of entry, error panel and main view shows |
| `DocsApp.Session.Reset` | docs/App.tsx:241-254 | a reset clears everything except the connection types, and the text only on a full reset |
| `DocsApp.Session.TextSubmit` | docs/App.tsx:45-48 | a submitted text starts a fresh session over that text, keeping the connection types |
| `DocsApp.Session.TextSelect` | docs/App.tsx:50-61 | the selection is recorded, the action toolbar closes, and the quick toolbar is open exactly for a non-empty selection with a bounding box |
| `DocsApp.Session.AddAnnotation` | docs/App.tsx:63-79 | without a non-empty selection nothing changes; otherwise the new annotation is sorted into the list and the selection and quick toolbar are cleared; the list stays sorted |
| `DocsApp.Session.UpdateNote` | docs/App.tsx:81-85 | only the note of that annotation changes |
| `DocsApp.Session.DeleteAnnotation` | docs/App.tsx:87-93 | the annotation and every connection from or to it go, and the active id is cleared only if it was that one; connections stay well formed |
| `DocsApp.Session.StartConnection` | docs/App.tsx:96-100 | the connection waits with its source and type, the source becomes active, and the action toolbar closes |
| `DocsApp.Session.CancelConnection` | docs/App.tsx:151-153 | only the pending connection is cleared |
| `DocsApp.Session.CompleteConnection` | docs/App.tsx:102-125 | an ignored completion changes nothing, a duplicate only cancels, and a new connection is appended and the pending one cancelled; connections stay well formed |
| `DocsApp.Session.AnnotationClick` | docs/App.tsx:127-149 | while connecting, a click only completes the connection: an ignored completion changes nothing, a duplicate only cancels, and a new connection is appended and the pending one cancelled; a click on the active annotation with its toolbar open closes both; any other click activates the annotation and, with a mounted container, opens its toolbar and closes the quick toolbar |
| `DocsApp.Session.UpdateConnectionTypes` | docs/App.tsx:155-157 | only the connection types change, to the given list |
| `DocsApp.Session.DeleteConnectionType` | docs/App.tsx:159-165 | an unknown id changes nothing; otherwise the type goes with every connection carrying its label; connections stay well formed |
| `DocsApp.Session.KeyDown` | docs/App.tsx:167-191 | Delete or Backspace deletes the active annotation, if there is one, unless the focus is in a textarea or input; Escape cancels a pending connection, or else closes open toolbars; other keys change nothing |
| `DocsApp.Session.Load` | docs/App.tsx:207-239 | a refused file only sets the error message; an accepted one replaces text, annotations, connections and connection types and nothing else |
| `DocsApp.Session.Save` | docs/App.tsx:193-205 | the record written (none without annotations) downloads as `annotations-session.json`, and with text it loads back to the same session |
| `DocsApp.Session.ToggleMindGraph` | docs/App.tsx:267 | only the mind-graph flag flips |
| `RootApp.BaseName` | App.tsx:86 | `name.split('.')[0]`: the longest prefix of the file name without a dot |
| `RootApp.DownloadName` | App.tsx:86-87 | the download name is the base name, or `annotations` when there is no file or the base name is empty, followed by `-annotations.json` |
| `RootApp.Session.constructor` | App.tsx:11-17 | the initial state: no file, no text, no annotations, not loading |
| `RootApp.Session.ShowsMainView` | App.tsx:132 | the main view never shows together with the error panel |
| `RootApp.Session.ShowsFileUpload` | App.tsx:131-132 | the upload view shows exactly when there is no error and the main view does not, so exactly one of upload, error panel and main view shows |
| `RootApp.Session.Reset` | App.tsx:121-129 | every field returns to its initial value |
| `RootApp.Session.TextSelect` | App.tsx:175 | only the selection changes |
| `RootApp.Session.AnnotationClick` | App.tsx:177 | only the active annotation changes |
| `RootApp.Session.AddAnnotation` | App.tsx:38-64 | without a non-empty selection nothing changes; a span intersecting an annotation is refused and the selection stays; otherwise the annotation is sorted in and the selection cleared; sortedness and disjointness are kept |
| `RootApp.Session.UpdateNote` | App.tsx:66-70 | only the note of that annotation changes; disjointness is kept |
| `RootApp.Session.DeleteAnnotation` | App.tsx:72-77 | the annotation goes and the active id is cleared only if it was that one |
| `RootApp.Session.Load` | App.tsx:94-119 | a refused file only sets the error; an accepted one installs its text and sorted annotations and forgets the uploaded file; connections and types in the file are ignored |
| `RootApp.Session.Save` | App.tsx:79-92 | the record written (none without annotations) downloads under the file's base name, and with text it loads back to the same text and annotations |
| `Partition.Endpoints` | docs/components/TextDisplay.tsx:182-186 | the values put into the breakpoint set: 0, the text length, then each annotation's start and end |
| `Partition.EndpointsMembers` | docs/components/TextDisplay.tsx:182-186 | a value is an endpoint exactly when it is 0, the length, or some annotation's start or end |
| `Partition.AddPoint` | docs/components/TextDisplay.tsx:184-185 | `Set.add` appends a value to the iteration order exactly when it is new |
| `Partition.CollectBreakpoints` | docs/components/TextDisplay.tsx:182-186 | the loop building the `Set` yields the distinct endpoints in first-insertion order |
| `Partition.DistinctCount` | docs/components/TextDisplay.tsx:188 | a value of a list without repeats occurs at most once |
| `Partition.RepeatCount` | docs/components/TextDisplay.tsx:188 | a value found at two positions occurs at least twice |
| `Partition.Breakpoints` | docs/components/TextDisplay.tsx:182-188 | the sorted breakpoints include 0 and the text length, and there are at most two per annotation plus those two |
| `Partition.BreakpointsSpec` | docs/components/TextDisplay.tsx:182-188 | the sorted breakpoints strictly increase and are exactly the endpoints |
| `Partition.SegmentsOfIncreasing` | docs/components/TextDisplay.tsx:190-193 | for strictly increasing breakpoints there is one segment per consecutive pair, in order |
| `Partition.Segments` | docs/components/TextDisplay.tsx:190-193 | there is at most one segment per consecutive pair of breakpoints, and every segment is non-empty |
| `Partition.Joined` | docs/components/TextDisplay.tsx:199 | the joined segment texts hold only characters of the text |
| `Partition.SegmentsTile` | docs/components/TextDisplay.tsx:190-199 | the segment texts, joined, are the text from the first breakpoint to the last |
| `Partition.SegmentsCoverText` | docs/components/TextDisplay.tsx:182-199 | when every annotation lies inside the text, the breakpoints run from 0 to the length and the segments spell the whole text |
| `Partition.CoveringSpec` | docs/components/TextDisplay.tsx:195-197 | a segment's covering list holds exactly the annotations intersecting it, ordered by length, narrowest first, none more often than in the list |
| `Partition.CoveringContainsSegment` | docs/components/TextDisplay.tsx:190-197 | an annotation covering a segment contains it entirely, since no breakpoint lies strictly inside a segment |
| `OverlapRender.Indicator` | docs/components/TextDisplay.tsx:217-225 | a mark has an indicator exactly for a symbol annotation, and the indicator string reads back as the annotation's value |
| `OverlapRender.NestOrder` | docs/components/TextDisplay.tsx:201-251 | wrapping in list order puts the first annotation innermost and the last outermost |
| `OverlapRender.WrapSegment` | docs/components/TextDisplay.tsx:199-252 | the `forEach` that reassigns `segmentContent` builds that nesting |
| `OverlapRender.NarrowestInnermost` | docs/components/TextDisplay.tsx:195-252 | in a segment's content the marks from the inside out are the covering annotations, narrowest innermost, exactly those intersecting the segment |
| `OverlapRender.SegmentShowsText` | docs/components/TextDisplay.tsx:195-252 | a segment's content, skipping indicators, shows exactly the segment's text |
| `OverlapRender.RenderSegments` | docs/components/TextDisplay.tsx:190-255 | one content per segment |
| `OverlapRender.Render` | docs/components/TextDisplay.tsx:179-257 | the render is empty exactly for an empty text |
| `OverlapRender.RenderedContent` | docs/components/TextDisplay.tsx:179-257 | the imperative render computes that result |
| `OverlapRender.WrapSegments` | docs/components/TextDisplay.tsx:190-255 | the `map` over the segments returns their contents, in order |
| `OverlapRender.Flatten` | docs/components/TextDisplay.tsx:217-251 | a segment's content yields at least one text node; every node but the last is an indicator, and the last is not |
| `OverlapRender.LogicalTextConcat` | docs/components/TextDisplay.tsx:143-163 | the text outside indicators of two node runs is the concatenation of theirs |
| `OverlapRender.NestShowsText` | docs/components/TextDisplay.tsx:217-251 | marks and indicators add nothing to the text a segment shows outside indicators |
| `OverlapRender.SegmentsShowText` | docs/components/TextDisplay.tsx:190-255 | the rendered segments show exactly the joined segment texts |
| `OverlapRender.RenderShowsText` | docs/components/TextDisplay.tsx:179-255 | with every annotation inside the text, the render shows the text exactly, and it is empty exactly for an empty text |
| `OverlapRender.OffsetOf` | docs/components/TextDisplay.tsx:143-163 | the offset is never negative for a non-negative boundary offset, and never past the end of the text the nodes spell when the boundary offset lies inside its node |
| `OverlapRender.GetOffset` | docs/components/TextDisplay.tsx:143-163 | the tree walk returns the length outside indicators before the boundary node, plus the boundary offset unless that node is an indicator |
| `OverlapRender.OffsetLocatesBoundary` | docs/components/TextDisplay.tsx:143-163 | that offset is the boundary's position in the text the nodes spell |
| `OverlapRender.MouseUpOutcome` | docs/components/TextDisplay.tsx:131-177 | mouse-up is silent while connecting; otherwise it reports a range exactly for a non-collapsed selection inside the text with start below end, and `null` otherwise |
| `OverlapRender.HandleMouseUp` | docs/components/TextDisplay.tsx:131-177 | the handler computes both offsets with `getOffset` and reports that outcome |
| `SequentialRender.RenderParts` | components/TextDisplay.tsx:60-107 | the `forEach` over the annotations builds the gaps and marks of the one-pass render |
| `SequentialRender.MarkedAnnotationsConcat` | components/TextDisplay.tsx:65-105 | the marks of two piece runs are the marks of the first then the second |
| `SequentialRender.PiecesFromMarks` | components/TextDisplay.tsx:68-99 | the pieces mark every remaining annotation once, in list order |
| `SequentialRender.RenderedMarks` | components/TextDisplay.tsx:60-107 | the render marks each annotation exactly once, in list order, whatever the spans |
| `SequentialRender.JoinedConcat` | components/TextDisplay.tsx:65-105 | the text of two piece runs is the text of the first then the second |
| `SequentialRender.DisjointIsChained` | App.tsx:52-62 | an annotation list sorted by `start` and pairwise disjoint, with non-empty spans, has each annotation ending before the next starts |
| `SequentialRender.PiecesFromFirst` | components/TextDisplay.tsx:69-98 | the pieces for a list spell the gap before its first annotation, that annotation's text, then the rest |
| `SequentialRender.PiecesSpellText` | components/TextDisplay.tsx:65-103 | for chained spans caching the text under them, the pieces from `lastIndex` spell the rest of the text |
| `SequentialRender.RenderedSpellsText` | components/TextDisplay.tsx:60-107 | for a disjoint list sorted by `start` whose marks cache the text under non-empty spans, the render spells the text exactly |
| `SequentialRender.MouseUpSelection` | components/TextDisplay.tsx:32-58 | mouse-up reports a range exactly when there is a range inside the text whose offsets differ, and `null` otherwise |
| `MindGraph.LinesFor` | components/MindGraphView.tsx:55 | `Math.ceil(len / 25)`: the fewest 25-character lines holding the text |
| `MindGraph.NodeDimensions` | components/MindGraphView.tsx:52-57 | a node is 160 wide; its height is 90 for up to 50 characters, and otherwise 90 plus 20 for each 25-character line beyond the second |
| `MindGraph.NodeHeightMonotone` | components/MindGraphView.tsx:52-57 | a longer text never gives a shorter node |
| `MindGraph.EndpointIds` | components/MindGraphView.tsx:84-87 | the count loop visits two ids per connection |
| `MindGraph.Degree` | components/MindGraphView.tsx:83-87 | an id has a positive degree exactly when it is an endpoint of some connection |
| `MindGraph.Bump` | components/MindGraphView.tsx:85-86 | one `set` of the count map: that id's count rises by one, a new id joins the key order, and no other count changes |
| `MindGraph.CountDegrees` | components/MindGraphView.tsx:83-87 | the count map holds exactly the endpoints, in first-insertion order, each with its number of occurrences as `from` plus as `to` |
| `MindGraph.CountsStep` | components/MindGraphView.tsx:84-87 | after both ends of the next connection are counted, every count equals the degree over the connections so far |
| `MindGraph.MaxDegree` | components/MindGraphView.tsx:90-97 | no listed id has a larger degree, and none is below -1 |
| `MindGraph.FirstWithDegree` | components/MindGraphView.tsx:92-97 | the first listed id of the given degree, or none exactly when no listed id has it |
| `MindGraph.FirstAnnotationId` | components/MindGraphView.tsx:89 | the fallback main node is the first annotation's id unless there is none or it is empty |
| `MindGraph.MaxDegreeAttained` | components/MindGraphView.tsx:92-97 | a non-empty list of ids has one of maximal degree |
| `MindGraph.MainNode` | components/MindGraphView.tsx:83-97 | with no connections the main node is the first annotation's id; otherwise it is one of the connections' endpoints |
| `MindGraph.MainNodeSpec` | components/MindGraphView.tsx:89-97 | with no connections the main node is the first annotation's id; otherwise it is an endpoint whose degree no id exceeds, and every id inserted into the map before it has a smaller degree |
| `MindGraph.FirstWithDegreeIsFirst` | components/MindGraphView.tsx:92-97 | no id before the chosen one has its degree |
| `MindGraph.FirstWithDegreeSnoc` | components/MindGraphView.tsx:92-97 | a later id never displaces an earlier id of the same degree |
| `MindGraph.ChooseMain` | components/MindGraphView.tsx:83-97 | the loop with `maxConnections = -1` and a strict `>` picks that main node |
| `MindGraph.ChooseFrom` | components/MindGraphView.tsx:89-97 | walking the entries with their degrees as counts yields the first annotation's id for an empty map, and otherwise the first key of maximal degree |
| `MindGraph.ChooseStep` | components/MindGraphView.tsx:93-96 | one pass of the loop: a strictly greater count becomes the maximum and its id the main node; otherwise the running maximum and choice are kept |
| `MindGraph.NodeFor` | components/MindGraphView.tsx:114-136 | a node carries its annotation's id and the position given, 160 wide and as high as its text needs |
| `MindGraph.FindAnnotation` | components/MindGraphView.tsx:100 | `find` returns an annotation of the list with that id, or none exactly when no annotation has it; a `null` id matches nothing |
| `MindGraph.SubNodeAnnotations` | components/MindGraphView.tsx:101 | the sub-node annotations are exactly the annotations whose id is not the main id |
| `MindGraph.SubNodes` | components/MindGraphView.tsx:126-138 | one sub-node per sub-node annotation, in order, the `i`-th placed by index |
| `MindGraph.MainNodes` | components/MindGraphView.tsx:113-124 | the main node exists exactly when some annotation has the main id, and sits at the origin |
| `MindGraph.LayoutNodes` | components/MindGraphView.tsx:100-138 | there are no more nodes than annotations, and none exactly when there are no annotations |
| `MindGraph.Layout` | components/MindGraphView.tsx:111-138 | building `newNodes` by `push` gives the main node then the sub-nodes |
| `MindGraph.LayoutNodesShowAnnotations` | components/MindGraphView.tsx:111-138 | every node shows an annotation of the list under that annotation's id |
| `MindGraph.LayoutMainFirst` | components/MindGraphView.tsx:100-124 | the first node is the main one, at the origin, exactly when some annotation has the main id; no other node has the main id |
| `MindGraph.LayoutCoversOthers` | components/MindGraphView.tsx:101 | every annotation whose id is not the main id gets a node |
| `MindGraph.LayoutWithoutMain` | components/MindGraphView.tsx:100-101 | when no annotation has the main id, every annotation becomes a sub-node, in list order |
| `MindGraph.FindNode` | components/MindGraphView.tsx:70-71 | `nodes.find` returns a node with that id, or none exactly when there is none |
| `MindGraph.LinkFor` | components/MindGraphView.tsx:69-75 | a connection yields a link exactly when both its ends are nodes, and the link joins those nodes with the connection's type |
| `MindGraph.Links` | components/MindGraphView.tsx:68-77 | there are no more links than connections, and every link joins nodes of the graph |
| `MindGraph.LinksConcat` | components/MindGraphView.tsx:68-77 | links follow connection order |
| `MindGraph.LinksSkipDangling` | components/MindGraphView.tsx:72-76 | a connection with an end that is not a node contributes no link and leaves the others in order |
| `MindGraph.LinksAllPresent` | components/MindGraphView.tsx:68-77 | when every connection joins two nodes there is one link per connection, in order, each the link of that connection |
| `MindGraph.MoveNode` | components/MindGraphView.tsx:207-209 | a drag step moves only the nodes with the dragged id, and nothing else about any node changes |
| `MindGraph.MoveNodeFind` | components/MindGraphView.tsx:207-209 | after a move the same ids find nodes, with the new position for the moved one |
| `MindGraph.MoveNodeKeepsLinks` | components/MindGraphView.tsx:68-77 | dragging keeps the same links between the same ids with the same types, in order |
| `MindGraph.SameEndsConcat` | components/MindGraphView.tsx:68-77 | two link lists that agree position by position on ids and types still agree when extended by two lists that agree |
| `MindGraph.GraphView.constructor` | components/MindGraphView.tsx:61-66 | a new view has no nodes, no gesture, and the identity transform |
| `MindGraph.GraphView.Relayout` | components/MindGraphView.tsx:79-156 | without a mounted container or annotations nothing changes; otherwise the nodes become the layout around the main node, and the view takes the fitted transform when the container has a size |
| `MindGraph.GraphView.MouseDown` | components/MindGraphView.tsx:178-196 | a press on an existing node with a mounted container starts dragging it at the grab offset; a press elsewhere starts panning; from rest a press never starts both |
| `MindGraph.GraphView.MouseMove` | components/MindGraphView.tsx:198-216 | a drag moves only the dragged node; otherwise a pan sets the translation; otherwise nothing changes |
| `MindGraph.GraphView.MouseUp` | components/MindGraphView.tsx:218-226 | releasing ends whichever gesture is active and changes nothing else |
| `Sidebar.DocsStatus` | docs/components/AnnotationSidebar.tsx:135-143 | a pending connection shows "Select annotation to connect"; failing that an active selection shows "Select a tool to annotate"; otherwise "Highlight text to begin" |
| `Sidebar.DocsToolsDisabled` | docs/components/AnnotationSidebar.tsx:135-146 | the tools are disabled exactly when the status does not ask for a tool |
| `Sidebar.RootStatus` | components/AnnotationSidebar.tsx:51-59 | a transcription in progress shows its message whatever the selection; failing that an active selection asks for a tool; otherwise the default message |
| `Sidebar.RootToolsDisabled` | components/AnnotationSidebar.tsx:51-62 | the tools are disabled exactly when the status does not ask for a tool |
| `Sidebar.SaveDisabled` | components/AnnotationSidebar.tsx:127 | the save button is disabled exactly when no save writes a record, whatever the text |
| `Sidebar.SaveEnabledIffRecord` | docs/components/AnnotationSidebar.tsx:216 | the save button is enabled exactly when a save writes a record, in both editors |
| `Sidebar.AddTypeTwiceRefused` | docs/components/AnnotationSidebar.tsx:47-53 | adding the same label again is refused |
| `Sidebar.SaveUnchangedEdit` | docs/components/AnnotationSidebar.tsx:55-66 | saving an edit that left a trimmed label as it was gives back the same list, when ids are unique |
| `Sidebar.ConnectionTypeManager.constructor` | docs/components/AnnotationSidebar.tsx:43-45 | the inputs start empty and nothing is being edited |
| `Sidebar.ConnectionTypeManager.SetNewTypeLabel` | docs/components/AnnotationSidebar.tsx:100 | typing changes only the new-type input |
| `Sidebar.ConnectionTypeManager.SetEditingLabel` | docs/components/AnnotationSidebar.tsx:78 | typing changes only the edit input |
| `Sidebar.ConnectionTypeManager.HandleAdd` | docs/components/AnnotationSidebar.tsx:47-53 | the update is the registry add; the input is cleared exactly when the add is accepted, and distinct labels stay distinct |
| `Sidebar.ConnectionTypeManager.HandleEdit` | docs/components/AnnotationSidebar.tsx:55-58 | editing starts from the type's id and current label |
| `Sidebar.ConnectionTypeManager.HandleSaveEdit` | docs/components/AnnotationSidebar.tsx:60-66 | the update is the rename; nothing changes when it is refused, and the editing state is cleared when it is accepted |
| `Sidebar.ConnectionTypeManager.EditButton` | docs/components/AnnotationSidebar.tsx:88 | the button saves while its type is being edited and starts editing it otherwise; an accepted save clears the editing state and a refused one changes nothing |

## Left out

- Transcription (`handleFileSelect`, App.tsx:19-36; services/geminiService.ts): it streams text from a remote model. The upload view (components/FileUpload.tsx) and the text-entry view (docs/components/TextEntry.tsx) only collect input. The `isLoading` and `file` fields are modelled, but not how they are set while a transcription streams.
- The DOM, JSON, `Blob` and `FileReader`.
  - The load step starts from the parsed record, `None` when `JSON.parse` throws.
  - Not modelled: a missing file choice, and a `FileReader` result that is not a string; both leave the state unchanged.
  - Not modelled: a truthy `text` that is not a string, and annotation records with missing or ill-typed fields.
  - Not modelled: `data.connections || []` and `data.connectionTypes || [...]` (docs/App.tsx:224-225) keep any truthy value, even one that is not an array. The record's optional lists stand for an absent value or an array only.
  - A selection is given to the mouse-up handlers as its facts: whether it exists, whether it lies inside the text container, and the text-node index and offset of each boundary.
- Js.LowerChar: lowers ASCII letters only, not the full Unicode case mapping of `toLowerCase`.
- Strings are sequences of characters, not UTF-16 code units. Lengths and offsets agree with the source for text without surrogate pairs.
- Floating point. Node coordinates and the view transform are `real`s given by the caller. Not modelled:
  - the radial placement (radius, angles, `cos`/`sin`);
  - the fit-to-container scale;
  - zoom-to-cursor (`handleWheel`);
  - the screen-to-world conversion;
  - edge-label placement;
  - toolbar pixel positions. The quick toolbar is open or closed, and the action toolbar is closed or open over an annotation id.
- Node velocities (`vx`, `vy`): always zero and never read.
- Hover state and the note tooltip of the docs/ renderer, the `alert` calls, all styling maps and JSX. These do not change the session.
- React scheduling: handlers read the state of the render they were created in. Each method here runs on the current state, which agrees with the source for one event at a time.
- MindGraph.FindAnnotation: `find` returns the first annotation with the id, but the contract states only that the result is one with that id. Ids come from `Date.now()`, so the source takes them as distinct, and then the two agree.
- MindGraph.FindNode: likewise states only that the node found has the id, not that it is the first.

## Notes on the source

- An edit of a connection-type label does not check it against the other labels, unlike an add (`RenameMayDuplicateLabel`).
- Deleting an annotation leaves a pending connection from it in place, so a later click can still connect from the deleted id.
- The one-pass renderer of the root editor shows each annotation's cached `text`. It spells the text only for disjoint annotations with non-empty spans that cache the text under them (`RenderedSpellsText`). The add handler creates exactly such annotations.
