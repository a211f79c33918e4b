/** The OpenGL display-list calls a collection node makes, seen as an abstract
    allocator of list names ("0 means none") together with the trace of the
    calls issued to the context and to the geometry, in order. */
module GlLists {

  /** One call issued while drawing; the last three are calls on the geometry. */
  datatype GlCall =
    | GenLists(id: nat)            // glGenLists(1) handed out `id`
    | NewList(id: nat, mode: nat)  // glNewList(id, mode)
    | EndList                      // glEndList()
    | CallList(id: nat)            // glCallList(id)
    | DeleteLists(id: nat)         // glDeleteLists(id, 1)
    | LoadTexture                  // geometry glLoadTexture()
    | CreateList(mode: nat)        // geometry createList(mode)
    | DrawGeometry(mode: nat)      // geometry glExecute(mode)

  /** A call that neither allocates nor releases a list name. */
  predicate Plain(c: GlCall) {
    !c.GenLists? && !c.DeleteLists?
  }

  /** The GL context: the list names currently allocated and the calls made so far. */
  class Context {
    var live: set<nat>
    var next: nat
    var calls: seq<GlCall>

    ghost predicate Valid()
      reads this
    {
      0 < next && forall id | id in live :: 0 < id < next
    }

    constructor ()
      ensures Valid() && live == {} && calls == []
    {
      live, next, calls := {}, 1, [];
    }

    /** glGenLists(1): a non-zero name that is not in use. */
    method GenList() returns (id: nat)
      requires Valid()
      modifies this
      ensures Valid()
      ensures id != 0 && id !in old(live) && live == old(live) + {id}
      ensures calls == old(calls) + [GenLists(id)]
    {
      id := next;
      next := next + 1;
      live := live + {id};
      calls := calls + [GenLists(id)];
    }

    /** glDeleteLists(id, 1): the name is no longer in use. */
    method DeleteList(id: nat)
      requires Valid()
      modifies this
      ensures Valid() && live == old(live) - {id}
      ensures calls == old(calls) + [DeleteLists(id)]
    {
      live := live - {id};
      calls := calls + [DeleteLists(id)];
    }

    /** Any other call: it is only appended to the trace. */
    method Issue(c: GlCall)
      requires Valid() && Plain(c)
      modifies this
      ensures Valid() && live == old(live)
      ensures calls == old(calls) + [c]
    {
      calls := calls + [c];
    }
  }
}
