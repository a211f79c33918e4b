/** GLC_WorldHandle: the registry of a world's occurrences by id, kept in step
    with the render collection that holds one view instance for every registered
    occurrence that has a representation. */
module World {

  /** GLC_uint occurrence ids. */
  type Id = nat

  /** What the registry reads of a structural occurrence: its id, whether it has
      a representation, the identities of its structural instance and reference,
      the representation handle of that reference, and its name. */
  datatype Occurrence = Occurrence(
    id: Id,
    hasRepresentation: bool,
    instance: nat,
    reference: nat,
    representation: nat,
    name: string)

  /** A 3D view instance in the collection: a copy of a representation whose id
      was forced to the occurrence's id, and the shader it was added under. */
  datatype ViewInstance = ViewInstance(id: Id, representation: nat, shader: nat)

  /** The ids of the registered occurrences that have a representation. */
  ghost function RepresentedIds(occurrences: map<Id, Occurrence>): set<Id>
  {
    set id | id in occurrences && occurrences[id].hasRepresentation
  }

  /** Registering an occurrence adds its id to the represented ids exactly when
      it has a representation. */
  lemma RepresentedAfterInsert(occurrences: map<Id, Occurrence>, o: Occurrence)
    requires o.id !in occurrences
    ensures RepresentedIds(occurrences[o.id := o]) ==
      RepresentedIds(occurrences) + (if o.hasRepresentation then {o.id} else {})
  {
  }

  /** Unregistering an id removes it, and only it, from the represented ids. */
  lemma RepresentedAfterRemove(occurrences: map<Id, Occurrence>, id: Id)
    ensures RepresentedIds(occurrences - {id}) == RepresentedIds(occurrences) - {id}
  {
  }

  class WorldHandle {
    var occurrences: map<Id, Occurrence>   // m_OccurenceHash
    var entries: map<Id, ViewInstance>     // m_Collection: its instances by id
    var selected: set<Id>                  // m_Collection: the selected ids
    var boundShaders: set<nat>             // m_Collection: the bound shader ids
    var worldCount: int                    // m_NumberOfWorld

    /** Every occurrence is filed under its own id; the collection holds one
        entry, under the same id, for exactly the represented occurrences;
        only entries are selected; shader 0 is never bound. */
    ghost predicate Valid()
      reads this
    {
      && (forall id | id in occurrences :: occurrences[id].id == id)
      && entries.Keys == RepresentedIds(occurrences)
      && (forall id | id in entries :: entries[id].id == id)
      && selected <= entries.Keys
      && 0 !in boundShaders
    }

    constructor ()
      ensures Valid()
      ensures occurrences == map[] && entries == map[] && selected == {} && boundShaders == {}
      ensures worldCount == 1
    {
      occurrences, entries, selected, boundShaders := map[], map[], {}, {};
      worldCount := 1;
    }

    /** instances(): every distinct structural instance of the registered
        occurrences, once (duplicates collapse, so never more than there are
        occurrences). */
    method Instances() returns (r: set<nat>)
      ensures forall i :: i in r <==> exists id :: id in occurrences && occurrences[id].instance == i
      ensures |r| <= |occurrences|
    {
      r := {};
      var rest := occurrences.Keys;
      while rest != {}
        invariant rest <= occurrences.Keys
        invariant forall i :: i in r <==>
          exists id :: id in occurrences && id !in rest && occurrences[id].instance == i
        invariant |r| <= |occurrences.Keys - rest|
        decreases rest
      {
        var id :| id in rest;
        assert occurrences.Keys - (rest - {id}) == (occurrences.Keys - rest) + {id};
        r := r + {occurrences[id].instance};
        rest := rest - {id};
      }
      assert occurrences.Keys - rest == occurrences.Keys;
    }

    /** references(): every distinct structural reference of the registered
        occurrences, once. */
    method References() returns (r: set<nat>)
      ensures forall f :: f in r <==> exists id :: id in occurrences && occurrences[id].reference == f
      ensures |r| <= |occurrences|
    {
      r := {};
      var rest := occurrences.Keys;
      while rest != {}
        invariant rest <= occurrences.Keys
        invariant forall f :: f in r <==>
          exists id :: id in occurrences && id !in rest && occurrences[id].reference == f
        invariant |r| <= |occurrences.Keys - rest|
        decreases rest
      {
        var id :| id in rest;
        assert occurrences.Keys - (rest - {id}) == (occurrences.Keys - rest) + {id};
        r := r + {occurrences[id].reference};
        rest := rest - {id};
      }
      assert occurrences.Keys - rest == occurrences.Keys;
    }

    /** addOccurence(): registers an occurrence whose id is not yet registered; if
        it has a representation, binds a non-zero shader, adds a view instance
        under the occurrence's id and selects it when asked to. */
    method AddOccurence(o: Occurrence, isSelected: bool, shaderId: nat)
      requires Valid() && o.id !in occurrences
      modifies this
      ensures Valid()
      ensures occurrences == old(occurrences)[o.id := o]
      ensures entries == if o.hasRepresentation
                         then old(entries)[o.id := ViewInstance(o.id, o.representation, shaderId)]
                         else old(entries)
      ensures boundShaders == if o.hasRepresentation && shaderId != 0
                              then old(boundShaders) + {shaderId} else old(boundShaders)
      ensures selected == if o.hasRepresentation && isSelected
                          then old(selected) + {o.id} else old(selected)
      ensures worldCount == old(worldCount)
    {
      RepresentedAfterInsert(occurrences, o);
      occurrences := occurrences[o.id := o];
      if o.hasRepresentation {
        var representation := ViewInstance(o.id, o.representation, shaderId);
        if shaderId != 0 {
          boundShaders := boundShaders + {shaderId};
        }
        entries := entries[o.id := representation];
        if isSelected {
          selected := selected + {o.id};
        }
      }
    }

    /** removeOccurence(): unregisters a registered id and, if the occurrence passed
        in has a representation, removes its entry (and selection) from the
        collection. The registry stays consistent when the occurrence passed in
        agrees with the registered one on having a representation; when only the
        registered one has it, the collection keeps a stale entry. */
    method RemoveOccurence(o: Occurrence)
      requires Valid() && o.id in occurrences
      modifies this
      ensures occurrences == old(occurrences) - {o.id}
      ensures entries == if o.hasRepresentation then old(entries) - {o.id} else old(entries)
      ensures selected == if o.hasRepresentation then old(selected) - {o.id} else old(selected)
      ensures boundShaders == old(boundShaders) && worldCount == old(worldCount)
      ensures old(occurrences)[o.id].hasRepresentation == o.hasRepresentation ==> Valid()
      ensures old(occurrences)[o.id].hasRepresentation && !o.hasRepresentation ==> !Valid()
    {
      RepresentedAfterRemove(occurrences, o.id);
      occurrences := occurrences - {o.id};
      if o.hasRepresentation {
        entries := entries - {o.id};
        selected := selected - {o.id};
      }
    }

    /** Adding an occurrence and removing it again restores the registry and the
        collection; only a shader binding is left behind. */
    method AddThenRemove(o: Occurrence, isSelected: bool, shaderId: nat)
      requires Valid() && o.id !in occurrences
      modifies this
      ensures Valid()
      ensures occurrences == old(occurrences) && entries == old(entries)
      ensures selected == old(selected)
      ensures boundShaders == old(boundShaders) +
        (if o.hasRepresentation && shaderId != 0 then {shaderId} else {})
    {
      AddOccurence(o, isSelected, shaderId);
      RemoveOccurence(o);
      assert occurrences == old(occurrences);
      assert entries == old(entries);
    }
  }

  /** Two occurrences (ids 2 and 3) of one structural reference: the reference
      is listed once, while the collection holds an entry for each. */
  method SharedReferenceListedOnce() returns (refs: set<nat>, keys: set<Id>)
    ensures refs == {7} && keys == {2, 3}
  {
    var world := new WorldHandle();
    world.AddOccurence(Occurrence(2, true, 20, 7, 70, "B"), false, 0);
    world.AddOccurence(Occurrence(3, true, 30, 7, 70, "C"), false, 0);
    refs := world.References();
    assert 7 in refs by {
      assert world.occurrences[2].reference == 7;
    }
    keys := world.entries.Keys;
  }

  /** One selected occurrence with a representation (id 1, shader 0): its instance
      is listed once and its entry is selected; removing it empties both. */
  method SelectedOccurrenceRoundTrip()
    returns (instances: set<nat>, selectedAfterAdd: set<Id>, occurrencesAfter: set<Id>, entriesAfter: set<Id>)
    ensures instances == {10} && selectedAfterAdd == {1}
    ensures occurrencesAfter == {} && entriesAfter == {}
  {
    var world := new WorldHandle();
    var a := Occurrence(1, true, 10, 5, 50, "A");
    world.AddOccurence(a, true, 0);
    instances := world.Instances();
    assert 10 in instances by {
      assert world.occurrences[1].instance == 10;
    }
    selectedAfterAdd := world.selected;
    world.RemoveOccurence(a);
    occurrencesAfter := world.occurrences.Keys;
    entriesAfter := world.entries.Keys;
  }
}
