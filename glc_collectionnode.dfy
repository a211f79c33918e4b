/** GLC_CollectionNode: one entry of a render collection. Copies share the
    geometry and an instance counter; each copy has its own cached bounding box
    and its own display list (0 means none). */
module RenderCache {
  import GlLists

  datatype Option<T> = None | Some(value: T)

  /** A bounding box, kept opaque; NullBox is the default-constructed one. */
  datatype BoundingBox = NullBox | Box(extent: int)

  /** The drawable geometry as the node sees it: its two validity flags, the box
      it would compute, and whether it has been deleted. */
  class Geometry {
    var listIsValid: bool   // getListIsValid()
    var validity: bool      // getValidity()
    var bbox: BoundingBox   // what getBoundingBox() returns a copy of
    var deleted: bool

    constructor (listIsValid: bool, validity: bool, bbox: BoundingBox)
      ensures this.listIsValid == listIsValid && this.validity == validity
      ensures this.bbox == bbox && !deleted
    {
      this.listIsValid, this.validity, this.bbox := listIsValid, validity, bbox;
      deleted := false;
    }
  }

  /** The shared *m_pNumberOfInstance; `owners` is the set of live nodes using it. */
  class InstanceCounter {
    var count: int
    var freed: bool
    ghost var owners: set<CollectionNode>

    ghost predicate Valid()
      reads this, owners
    {
      && count == |owners|
      && (forall o | o in owners :: o.counter == this)
      && (freed <==> owners == {})
    }

    constructor ()
      ensures count == 1 && !freed && owners == {}
    {
      count, freed := 1, false;
      owners := {};
    }
  }

  class CollectionNode {
    var geom: Geometry?               // m_pGeom, shared by the copies
    var listId: nat                   // m_ListID, per copy
    var box: Option<BoundingBox>      // m_pBoundingBox, per copy
    var counter: InstanceCounter      // m_pNumberOfInstance, shared by the copies

    /** This node is a live owner of a consistent counter. */
    ghost predicate Owned()
      reads this, counter, counter.owners
    {
      this in counter.owners && counter.Valid()
    }

    /** An owned node never holds a display list without a cached box. */
    ghost predicate Valid()
      reads this, counter, counter.owners
    {
      Owned() && (listId != 0 ==> box.Some?)
    }

    /** getListValidity() */
    predicate ListValidity()
      reads this, geom
    {
      geom != null && listId != 0 && geom.validity
    }

    /** getBoundingBoxValidity() */
    predicate BoundingBoxValidity()
      reads this, geom
    {
      geom != null && box.Some? && geom.listIsValid && geom.validity
    }

    /** Default constructor: no geometry, no list, no box, a fresh counter of 1. */
    constructor ()
      ensures Valid() && fresh(counter)
      ensures geom == null && listId == 0 && box == None
      ensures counter.count == 1 && counter.owners == {this}
    {
      geom, listId, box := null, 0, None;
      counter := new InstanceCounter();
      new;
      counter.owners := {this};
    }

    /** Constructor with a geometry (which may be null). */
    constructor WithGeometry(g: Geometry?)
      ensures Valid() && fresh(counter)
      ensures geom == g && listId == 0 && box == None
      ensures counter.count == 1 && counter.owners == {this}
    {
      geom, listId, box := g, 0, None;
      counter := new InstanceCounter();
      new;
      counter.owners := {this};
    }

    /** Copy constructor: shares geometry and counter, counts one more instance,
        and copies no cache state. */
    constructor Copy(input: CollectionNode)
      requires input.Valid()
      modifies input.counter
      ensures Valid() && input.Valid()
      ensures geom == input.geom && counter == input.counter
      ensures counter.count == old(input.counter.count) + 1
      ensures counter.owners == old(input.counter.owners) + {this}
      ensures listId == 0 && box == None
    {
      geom, listId, box := input.geom, 0, None;
      counter := input.counter;
      new;
      counter.count := counter.count + 1;
      counter.owners := counter.owners + {this};
    }

    /** Destructor: the geometry and the counter are deleted only by the last
        instance; the box and a non-zero list are always released by this copy. */
    method Destroy(gl: GlLists.Context)
      requires Valid() && gl.Valid()
      modifies this, counter, gl, geom
      ensures gl.Valid() && counter == old(counter) && counter.Valid()
      ensures counter.count == old(counter.count) - 1
      ensures counter.owners == old(counter.owners) - {this}
      ensures counter.freed <==> old(counter.count) == 1
      ensures old(geom) != null ==>
        old(geom).deleted == (old(geom.deleted) || old(counter.count) == 1)
      ensures old(geom) != null ==>
        && old(geom).listIsValid == old(geom.listIsValid)
        && old(geom).validity == old(geom.validity)
        && old(geom).bbox == old(geom.bbox)
      ensures geom == if old(counter.count) == 1 then null else old(geom)
      ensures box == None && listId == 0
      ensures old(listId) != 0 ==>
        gl.calls == old(gl.calls) + [GlLists.DeleteLists(old(listId))] &&
        gl.live == old(gl.live) - {old(listId)}
      ensures old(listId) == 0 ==> gl.calls == old(gl.calls) && gl.live == old(gl.live)
      ensures !Valid()
    {
      counter.count := counter.count - 1;
      counter.owners := counter.owners - {this};
      if counter.count == 0 {
        if geom != null {
          geom.deleted := true;
          geom := null;
        }
        counter.freed := true;
      }
      if box.Some? {
        box := None;
      }
      if listId != 0 {
        gl.DeleteList(listId);
        listId := 0;
      }
    }

    /** getGeometry() */
    method GetGeometry() returns (g: Geometry?)
      ensures g == geom
    {
      g := geom;
    }

    /** setGeometry(), as written: it fails on a node WITHOUT geometry, and
        replaces the geometry of a node that has one. */
    method SetGeometry(g: Geometry?) returns (ok: bool)
      requires Valid()
      modifies this
      ensures Valid() && counter == old(counter)
      ensures ok <==> old(geom) != null
      ensures geom == if ok then g else old(geom)
      ensures listId == old(listId) && box == old(box)
    {
      if geom == null {
        ok := false;
      } else {
        geom := g;
        ok := true;
      }
    }

    /** setGeometry() as evidently intended: binds a geometry once, on a node without one,
        and otherwise fails without changing anything. */
    method SetGeometryOnce(g: Geometry?) returns (ok: bool)
      requires Valid()
      modifies this
      ensures Valid() && counter == old(counter)
      ensures ok <==> old(geom) == null
      ensures geom == if ok then g else old(geom)
      ensures listId == old(listId) && box == old(box)
    {
      if geom == null {
        geom := g;
        ok := true;
      } else {
        ok := false;
      }
    }

    /** computeBoundingBox(): replaces any cached box by the geometry's. */
    method ComputeBoundingBox()
      requires Owned() && geom != null
      modifies this
      ensures geom == old(geom) && listId == old(listId) && counter == old(counter)
      ensures Valid()
      ensures box == Some(geom.bbox)
    {
      if box.Some? {
        box := None;
      }
      box := Some(geom.bbox);
    }

    /** getBoundingBox(): the cached box while the geometry reports both flags
        valid; otherwise a recomputed box if there is a geometry, else NullBox. */
    method GetBoundingBox() returns (r: BoundingBox)
      requires Valid()
      modifies this
      ensures Valid()
      ensures geom == old(geom) && listId == old(listId) && counter == old(counter)
      ensures old(BoundingBoxValidity()) ==> r == old(box).value && box == old(box)
      ensures !old(BoundingBoxValidity()) && geom != null ==>
        r == geom.bbox && box == Some(geom.bbox)
      ensures geom == null ==> r == NullBox && box == old(box)
    {
      if BoundingBoxValidity() {
        r := box.value;
      } else if geom != null {
        ComputeBoundingBox();
        r := box.value;
      } else {
        r := NullBox;
      }
    }

    /** glExecute(mode): rebuilds the geometry's own list when it is invalid;
        records this node's display list (allocating it when the id is 0) when the
        geometry is invalid or the id is 0, and otherwise replays it; recomputes
        the box whenever something was rebuilt. */
    method GlExecute(mode: nat, gl: GlLists.Context)
      requires Valid() && gl.Valid() && geom != null
      modifies this, gl
      ensures Valid() && gl.Valid()
      ensures geom == old(geom) && counter == old(counter)
      ensures listId != 0
      ensures old(listId) != 0 ==> listId == old(listId) && gl.live == old(gl.live)
      ensures old(listId) == 0 ==> listId !in old(gl.live) && gl.live == old(gl.live) + {listId}
      ensures gl.calls == old(gl.calls)
        + (if !geom.listIsValid then [GlLists.LoadTexture, GlLists.CreateList(mode)] else [])
        + (if old(listId) == 0 then [GlLists.GenLists(listId)] else [])
        + (if !geom.validity || old(listId) == 0
           then [GlLists.NewList(listId, mode), GlLists.DrawGeometry(mode), GlLists.EndList]
           else [GlLists.CallList(listId)])
      ensures box == if !geom.listIsValid || !geom.validity || old(listId) == 0
                     then Some(geom.bbox) else old(box)
      ensures ListValidity() == geom.validity
      ensures BoundingBoxValidity() == (geom.listIsValid && geom.validity)
    {
      var computeBox := false;
      if !geom.listIsValid {
        gl.Issue(GlLists.LoadTexture);
        gl.Issue(GlLists.CreateList(mode));
        computeBox := true;
      }
      if !geom.validity || listId == 0 {
        if listId == 0 {
          listId := gl.GenList();
        }
        gl.Issue(GlLists.NewList(listId, mode));
        gl.Issue(GlLists.DrawGeometry(mode));
        gl.Issue(GlLists.EndList);
        computeBox := true;
      } else {
        gl.Issue(GlLists.CallList(listId));
      }
      if computeBox {
        ComputeBoundingBox();
      }
    }

    /** Two draws in a row of a geometry that reports both flags valid: the
        second draw only replays the list the first one left behind. */
    method GlExecuteTwice(mode: nat, gl: GlLists.Context)
      requires Valid() && gl.Valid() && geom != null
      requires geom.listIsValid && geom.validity
      modifies this, gl
      ensures Valid() && gl.Valid() && listId != 0
      ensures old(listId) != 0 ==> listId == old(listId)
      ensures gl.calls == old(gl.calls)
        + (if old(listId) == 0
           then [GlLists.GenLists(listId), GlLists.NewList(listId, mode),
                 GlLists.DrawGeometry(mode), GlLists.EndList]
           else [GlLists.CallList(listId)])
        + [GlLists.CallList(listId)]
    {
      GlExecute(mode, gl);
      GlExecute(mode, gl);
    }

    /** Two bounding-box queries in a row return the same box; when the geometry
        reports both flags valid, the second one only reads the cache. */
    method GetBoundingBoxTwice() returns (r1: BoundingBox, r2: BoundingBox)
      requires Valid()
      modifies this
      ensures Valid() && r1 == r2
      ensures geom != null && geom.listIsValid && geom.validity ==>
        BoundingBoxValidity() && box == Some(r2)
    {
      r1 := GetBoundingBox();
      r2 := GetBoundingBox();
    }
  }

  /** setGeometry() as written, on a node built without geometry: it refuses,
      so such a node can never be given one. */
  method SetGeometryOnEmptyNode(g: Geometry) returns (ok: bool, bound: Geometry?)
    ensures !ok && bound == null
  {
    var node := new CollectionNode();
    ok := node.SetGeometry(g);
    bound := node.GetGeometry();
  }

  /** The corrected setGeometry() on a node built without geometry binds it. */
  method SetGeometryOnceOnEmptyNode(g: Geometry) returns (ok: bool, bound: Geometry?)
    ensures ok && bound == g
  {
    var node := new CollectionNode();
    ok := node.SetGeometryOnce(g);
    bound := node.GetGeometry();
  }

  /** Two copies of one geometry: the geometry survives the first destruction
      and is deleted by the second. */
  method LastInstanceDeletesGeometry(gl: GlLists.Context) returns (deletedEarly: bool, deletedAtEnd: bool)
    requires gl.Valid()
    modifies gl
    ensures !deletedEarly && deletedAtEnd
  {
    var g := new Geometry(true, true, Box(1));
    var a := new CollectionNode.WithGeometry(g);
    var b := new CollectionNode.Copy(a);
    b.GlExecute(0, gl);
    a.Destroy(gl);
    deletedEarly := g.deleted;
    b.Destroy(gl);
    deletedAtEnd := g.deleted;
  }
}
