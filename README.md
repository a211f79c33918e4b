# GLC-lib scene core in Dafny

A model of three ownership and bookkeeping components of GLC-lib's scene core, with proofs about them.

- **`GLC_Rep`** (`glc_rep.dfy`, module `SharedRep`) is a representation handle. Its copies share one heap record: an owner counter, a file name and a name. `SharedRep.Record` is that record. Its ghost `owners` set holds the live handles. Its invariant is that the counter equals the number of live owners, every owner points at the record, and the record is freed exactly when no owner is left. Every constructor and every method keeps that invariant for every handle sharing the record. A handle that gives up ownership stops being `Valid()`, so it cannot release the record a second time.
- **`GLC_CollectionNode`** (`glc_collectionnode.dfy`, module `RenderCache`) is a render-cache node.
  - Copies share the geometry pointer and an instance counter, and the counter has the same owners invariant as the record above.
  - Each copy has its own bounding box (`Option`) and its own display-list id, where 0 means none.
  - The geometry is reduced to its two validity flags, the box it would compute, and a `deleted` flag.
  - The OpenGL display-list calls go through `GlLists.Context` (`gl_lists.dfy`). That context is an abstract allocator of non-zero list names. It also keeps a trace, in order, of the display-list calls and of the geometry's `glLoadTexture`, `createList` and `glExecute` calls. The trace leaves out reads of the geometry's flags and its `getBoundingBox` call.
  - `GlExecute` is specified by the exact trace it appends, the list id it leaves behind, and the box it caches. All three are stated in terms of the geometry's two flags and whether the id was 0 on entry.
- **`GLC_WorldHandle`** (`glc_worldhandle.dfy`, module `World`) maps occurrence ids to occurrences and keeps the render collection in step with that map. The collection is modelled abstractly as three parts: a map from id to view instance, a set of selected ids and a set of bound shader ids. The invariant `Valid()` says the collection's keys are exactly the registered ids whose occurrence has a representation. `instances()` and `references()` are read-only loops over the map. Each is proved to return every distinct instance or reference exactly once, as a set.

The evidently intended behaviour of `setGeometry` is a bind-once guard: the node adopts a geometry only when it has none. The code at `glc_collectionnode.cpp:150` returns `false` when the node has *no* geometry, and replaces the geometry when one exists. `CollectionNode.SetGeometry` models the code as written. The bind-once behaviour is `SetGeometryOnce`; see Findings.

## Model

| member | source | states |
|---|---|---|
| `SharedRep.Rep.constructor` | geometry/glc_rep.cpp:28-34 | a fresh record with count 1, empty file name and name, whose only owner is the new handle |
| `SharedRep.Rep.Copy` | geometry/glc_rep.cpp:37-43 | the copy shares the source's record (same count, file name and name), the count grows by exactly 1 and the copy joins the owners; both handles stay valid |
| `SharedRep.Rep.Assign` | geometry/glc_rep.cpp:46-59 | self-assignment changes neither the record nor its count nor its owners; otherwise the old record loses this owner (and is freed iff that was its last one, keeping its file name and name for the owners that remain) before the source's record gains it; when both already shared one record its count comes back unchanged |
| `SharedRep.Rep.Clear` | geometry/glc_rep.cpp:73-85 | the count drops by 1 and this owner leaves; the record is freed and the pointer nulled exactly when the count reaches 0; the remaining owners stay consistent |
| `SharedRep.Rep.Destroy` | geometry/glc_rep.cpp:62-66 | the destructor releases ownership once through clear(): the count drops by 1, the record is freed iff it reaches 0, and the file name and name stay as they were for the remaining owners; afterwards the handle is no longer valid, so it cannot release again |
| `SharedRep.LastOwnerFrees` | geometry/glc_rep.cpp:37-85 | on a construct / copy / assign / destroy lineage, the shared record is not freed while an owner remains and is freed once the last owner leaves |
| `RenderCache.CollectionNode.constructor` | glc_collectionnode.cpp:34-41 | no geometry, list id 0, no box, a fresh instance counter of 1 |
| `RenderCache.CollectionNode.WithGeometry` | glc_collectionnode.cpp:44-51 | the given (possibly null) geometry, list id 0, no box, a fresh instance counter of 1 |
| `RenderCache.CollectionNode.Copy` | glc_collectionnode.cpp:54-62 | the copy shares geometry and counter, the counter grows by exactly 1, and the copy's list id is 0 and its box is none |
| `RenderCache.CollectionNode.Destroy` | glc_collectionnode.cpp:65-90 | the shared counter drops by 1; the geometry is deleted and the counter freed exactly when it reaches 0; the node's own box and non-zero list are always released (a glDeleteLists call); a geometry that is not deleted keeps its flags and box; the node is no longer valid |
| `RenderCache.CollectionNode.GetGeometry` | glc_collectionnode.cpp:97-100 | returns the node's geometry pointer |
| `RenderCache.CollectionNode.ListValidity` | glc_collectionnode.cpp:103-110 | getListValidity(): geometry present, list id non-zero and geometry valid |
| `RenderCache.CollectionNode.BoundingBoxValidity` | glc_collectionnode.cpp:134-141 | getBoundingBoxValidity(): geometry and box present, geometry list-valid and valid |
| `RenderCache.CollectionNode.GetBoundingBox` | glc_collectionnode.cpp:113-131 | the cached box, untouched, when the box is valid; otherwise, with a geometry, the geometry's box, now cached; without geometry the null box and no change |
| `RenderCache.CollectionNode.SetGeometry` | glc_collectionnode.cpp:148-156 | as written: succeeds exactly when the node already has a geometry, and then holds the new pointer; otherwise nothing changes |
| `RenderCache.CollectionNode.SetGeometryOnce` | glc_collectionnode.cpp:148-156 | the corrected guard: succeeds exactly when the node has no geometry, and then holds the new one; otherwise nothing changes |
| `RenderCache.CollectionNode.ComputeBoundingBox` | glc_collectionnode.cpp:211-221 | with a geometry present, the cached box is replaced by the geometry's box; nothing else changes |
| `RenderCache.CollectionNode.GlExecute` | glc_collectionnode.cpp:163-202 | the geometry list is rebuilt iff it is invalid; a fresh non-zero list id is allocated only when the id was 0; the list is recorded iff the geometry is invalid or the id was 0, and replayed otherwise; the box is recomputed iff the geometry list was invalid, the geometry invalid or the id 0; afterwards the id is non-zero, getListValidity equals the geometry's validity and getBoundingBoxValidity equals both flags |
| `RenderCache.CollectionNode.GlExecuteTwice` | glc_collectionnode.cpp:163-202 | with both geometry flags valid, a second draw only replays the list the first one recorded or replayed |
| `RenderCache.CollectionNode.GetBoundingBoxTwice` | glc_collectionnode.cpp:113-141 | two box queries in a row return equal boxes; with both geometry flags valid the box is then cached and valid, so the second query reads it |
| `RenderCache.LastInstanceDeletesGeometry` | glc_collectionnode.cpp:65-77 | of two copies sharing a geometry, the first destruction leaves the geometry alive and the second deletes it |
| `RenderCache.SetGeometryOnEmptyNode` | glc_collectionnode.cpp:150 | as written, setGeometry on a node built without geometry fails and the node still has no geometry |
| `RenderCache.SetGeometryOnceOnEmptyNode` | glc_collectionnode.cpp:148-156 | the corrected setGeometry on a node built without geometry succeeds and the node reports that geometry |
| `GlLists.Context.GenList` | glc_collectionnode.cpp:184 | glGenLists(1) yields a non-zero name not already in use |
| `GlLists.Context.DeleteList` | glc_collectionnode.cpp:87 | glDeleteLists(id, 1) takes the name out of use |
| `GlLists.Context.Issue` | glc_collectionnode.cpp:170-194 | glNewList, glEndList and glCallList, and the geometry's glLoadTexture, createList and glExecute, are appended to the trace in order and leave the set of list names in use unchanged |
| `World.WorldHandle.constructor` | sceneGraph/glc_worldhandle.cpp:29-35 | an empty occurrence map, an empty collection and a world count of 1 |
| `World.WorldHandle.Instances` | sceneGraph/glc_worldhandle.cpp:43-53 | contains an instance iff some registered occurrence has it, and has no more elements than there are occurrences |
| `World.WorldHandle.References` | sceneGraph/glc_worldhandle.cpp:56-66 | contains a reference iff some registered occurrence has it, and has no more elements than there are occurrences |
| `World.WorldHandle.AddOccurence` | sceneGraph/glc_worldhandle.cpp:70-90 | requires the id to be absent; the map sends the id to the occurrence and keeps every other key; iff the occurrence has a representation, one entry keyed by its id is added, a non-zero shader is bound, and the entry is selected iff asked; the collection-keys invariant is kept |
| `World.WorldHandle.RemoveOccurence` | sceneGraph/glc_worldhandle.cpp:93-103 | requires the id to be present; it leaves the map; its entry and selection leave the collection iff the occurrence passed has a representation; the invariant is kept when that agrees with the registered occurrence, and broken when only the registered one has a representation |
| `World.WorldHandle.AddThenRemove` | sceneGraph/glc_worldhandle.cpp:70-103 | add followed by remove restores the occurrence map, the entries and the selection; only the shader binding remains |
| `World.RepresentedAfterInsert` | sceneGraph/glc_worldhandle.cpp:73-83 | registering an absent id adds it to the represented ids iff the occurrence has a representation |
| `World.RepresentedAfterRemove` | sceneGraph/glc_worldhandle.cpp:96-101 | unregistering an id removes exactly that id from the represented ids |
| `World.SharedReferenceListedOnce` | sceneGraph/glc_worldhandle.cpp:56-83 | two occurrences (ids 2 and 3) of one reference: references() lists it once, the collection holds entries 2 and 3 |
| `World.SelectedOccurrenceRoundTrip` | sceneGraph/glc_worldhandle.cpp:43-103 | a selected occurrence with a representation: instances() lists its instance once, its entry is selected, and removing it empties the map and the collection |

## Left out

- `io/glc_fileloader.cpp` is not part of this model. It only dispatches on the file extension to format loaders whose code is not shown, and it does file I/O and signalling.
- The OpenGL calls (`glGenLists`, `glNewList`, `glEndList`, `glCallList`, `glDeleteLists`) have no GPU semantics here. They are an allocator of names plus a call trace.
- The geometry's own `glLoadTexture`, `createList` and `glExecute` appear only as calls in the trace. Its `getBoundingBox()` is the field `bbox`, and that read is not traced. Their effect on the geometry's two flags is not modelled: the node reads the flags and never writes them.
- `RenderCache.CollectionNode.ComputeBoundingBox`: the geometry's `getBoundingBox()` is taken never to return NULL, so the fall-through at glc_collectionnode.cpp:122 to the null box is not modelled. `Valid()`'s "a list implies a cached box" and `GlExecute`'s `BoundingBoxValidity` clause rest on that.
- `RenderCache.CollectionNode.GlExecuteTwice`: it does not show that the geometry's compile count stays at 1, because the model leaves out `createList` setting the geometry's list flag. It therefore requires both flags valid up front.
- `GLC_Collection`, `GLC_3DViewInstance` and `GLC_3DRep` are not part of this model, and neither is the `dynamic_cast`. The collection is a map, a selection set and a shader set. A view instance records the occurrence id, the representation handle and the shader.
- `World.WorldHandle.AddOccurence`: it cannot show that the shader is bound before the entry is added. The abstract collection makes that order unobservable.
- Freeing memory is a `freed` or `deleted` flag. Use after free is not modelled. Nor is a geometry deleted twice by two separate counter groups that hold the same pointer.
- The effect of `setGeometry` on the other copies is not followed through. It replaces the pointer in one copy only, so copies sharing a counter can end up with different geometries.
- `instances()` and `references()` return a `QList` built from a `QSet`. The model returns the set; the list's order is unspecified in the source and is not modelled.
- `qDebug` logging has no counterpart. `Q_ASSERT` checks become `requires` clauses.
- The counters are not atomic, and concurrency is not modelled: the code is single-threaded.
- `~GLC_WorldHandle` is empty. `m_NumberOfWorld` is only initialised here.
- Occurrences are values. The model therefore takes `hasRepresentation` to be stable for a registered occurrence. `RemoveOccurence` states what happens when the occurrence passed disagrees with the registered one.

## Findings

| source | as written | input that shows it | evidently intended | confidence | as-written member | corrected member |
|---|---|---|---|---|---|---|
| glc_collectionnode.cpp:150 | `setGeometry` returns false when the node has no geometry, and replaces the geometry when there is one | a default-constructed node and any geometry: `setGeometry` returns false and the node still has no geometry, so it can never get one this way | bind the geometry only on a node without one, and fail without change otherwise | medium, not executed | `RenderCache.SetGeometryOnEmptyNode` (over `RenderCache.CollectionNode.SetGeometry`) | `RenderCache.SetGeometryOnceOnEmptyNode` (over `RenderCache.CollectionNode.SetGeometryOnce`) |

Nothing else in the model calls `setGeometry`, so neither version feeds into the other proofs.
