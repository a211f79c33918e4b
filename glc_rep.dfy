/** GLC_Rep: a representation handle whose copies share one heap record
    (an owner counter, a file name and a name) by hand-rolled reference counting. */
module SharedRep {

  /** The shared heap record: *m_pNumberOfRepresentation, *m_pFileName and *m_pName.
      `freed` says the three were deleted; `owners` is the set of live handles
      pointing here. */
  class Record {
    var count: int
    var fileName: string
    var name: string
    var freed: bool
    ghost var owners: set<Rep>

    /** The counter is the number of live owners, every owner points here, and
        the record is freed exactly when no owner is left. */
    ghost predicate Valid()
      reads this, owners
    {
      && count == |owners|
      && (forall o | o in owners :: o.rec == this)
      && (freed <==> owners == {})
    }

    constructor ()
      ensures count == 1 && fileName == "" && name == "" && !freed && owners == {}
    {
      count, fileName, name, freed := 1, "", "", false;
      owners := {};
    }
  }

  class Rep {
    var rec: Record?

    /** This handle is a live owner of a consistent record. */
    ghost predicate Valid()
      reads this, rec, (if rec == null then {} else rec.owners)
    {
      rec != null && this in rec.owners && rec.Valid()
    }

    /** Default constructor: a fresh record with count 1 and empty names. */
    constructor ()
      ensures Valid() && fresh(rec)
      ensures rec.count == 1 && rec.fileName == "" && rec.name == ""
      ensures rec.owners == {this}
    {
      rec := new Record();
      new;
      rec.owners := {this};
    }

    /** Copy constructor: shares the record of `other` and counts one more owner. */
    constructor Copy(other: Rep)
      requires other.Valid()
      modifies other.rec
      ensures Valid() && other.Valid()
      ensures rec == other.rec
      ensures rec.count == old(other.rec.count) + 1
      ensures rec.owners == old(other.rec.owners) + {this}
      ensures rec.fileName == old(other.rec.fileName) && rec.name == old(other.rec.name)
    {
      rec := other.rec;
      new;
      rec.count := rec.count + 1;
      rec.owners := rec.owners + {this};
    }

    /** clear(): gives up ownership; the record is freed, and the pointer nulled,
        exactly when this was its last owner. Other owners stay valid. */
    method Clear()
      requires Valid()
      modifies this, rec
      ensures old(rec).Valid()
      ensures old(rec).count == old(rec.count) - 1
      ensures old(rec).owners == old(rec.owners) - {this}
      ensures old(rec).freed <==> old(rec.count) == 1
      ensures rec == if old(rec.count) == 1 then null else old(rec)
      ensures old(rec).fileName == old(rec.fileName) && old(rec).name == old(rec.name)
      ensures !Valid()
    {
      rec.count := rec.count - 1;
      rec.owners := rec.owners - {this};
      if rec.count == 0 {
        rec.freed := true;
        rec := null;
      }
    }

    /** operator=: a no-op on self-assignment; otherwise releases the old record
        (which may free it) and then becomes one more owner of the source's record. */
    method Assign(other: Rep)
      requires Valid() && other.Valid()
      modifies this, rec, other.rec
      ensures Valid() && other.Valid()
      ensures this == other ==>
        && rec == old(rec)
        && rec.count == old(rec.count) && rec.owners == old(rec.owners)
        && rec.freed == old(rec.freed)
      ensures this != other ==> rec == old(other.rec)
      ensures this != other && old(rec) != old(other.rec) ==>
        && old(rec).Valid()
        && old(rec).count == old(rec.count) - 1
        && old(rec).owners == old(rec.owners) - {this}
        && (old(rec).freed <==> old(rec.count) == 1)
        && old(rec).fileName == old(rec.fileName) && old(rec).name == old(rec.name)
        && rec.count == old(other.rec.count) + 1
        && rec.owners == old(other.rec.owners) + {this}
      ensures this != other && old(rec) == old(other.rec) ==>
        rec.count == old(rec.count) && rec.owners == old(rec.owners)
      ensures rec.fileName == old(other.rec.fileName) && rec.name == old(other.rec.name)
    {
      if this != other {
        if other.rec == rec {
          // the two owners are distinct, so the count is at least 2 and survives clear()
          assert other in rec.owners - {this};
        }
        Clear();
        rec := other.rec;
        rec.count := rec.count + 1;
        rec.owners := rec.owners + {this};
      }
    }

    /** Destructor: releases ownership through clear(); afterwards the handle is
        no longer an owner, so it cannot be released a second time. */
    method Destroy()
      requires Valid()
      modifies this, rec
      ensures old(rec).Valid()
      ensures old(rec).count == old(rec.count) - 1
      ensures old(rec).owners == old(rec.owners) - {this}
      ensures old(rec).freed <==> old(rec.count) == 1
      ensures rec == if old(rec.count) == 1 then null else old(rec)
      ensures old(rec).fileName == old(rec.fileName) && old(rec).name == old(rec.name)
      ensures !Valid()
    {
      Clear();
    }
  }

  /** A lineage of three handles: the original, a copy, and a third one assigned
      from the copy. Reports whether the shared record was freed before the last
      owner left and whether it is freed at the end. */
  method LastOwnerFrees() returns (freedEarly: bool, freedAtEnd: bool)
    ensures !freedEarly && freedAtEnd
  {
    var a := new Rep();
    var shared := a.rec;
    var b := new Rep.Copy(a);
    var c := new Rep();
    var other := c.rec;
    c.Assign(b);
    assert other.freed && shared.count == 3;
    a.Destroy();
    b.Destroy();
    freedEarly := shared.freed;
    c.Destroy();
    freedAtEnd := shared.freed;
  }
}
