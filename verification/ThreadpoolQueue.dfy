/** The plain session queue. */
module ThreadpoolQueues {
  import opened Sequences
  import F = OwnedFifos

  /** What a pull reports besides the item. */
  datatype QStatus = QStatus(empty: bool, endbatch: bool, called: bool, validrv: bool)

  const NO_STATUS := QStatus(false, false, false, false)

  class ThreadpoolQueue<T> {
    var itsQ: seq<T>
    var deqIndexes: seq<int>
    var occupant: int

    /** Every stored item has an index, so that a pull never takes one from an empty deque. */
    ghost predicate Valid()
      reads this
    {
      |itsQ| <= |deqIndexes| && F.WellOwned(View())
    }

    ghost function View(): (f: F.Fifo<T>)
      reads this
    {
      F.Fifo(itsQ, occupant)
    }

    constructor ()
      ensures Valid() && View() == F.Empty() && deqIndexes == []
    {
      itsQ, deqIndexes, occupant := [], [], -1;
    }

    method PullAndOccupyWithId(itsid: int, qstat: QStatus)
      returns (item: Option<T>, itemIndex: int, qstat': QStatus)
      requires Valid()
      modifies this
      ensures Valid()
      ensures item == F.Pulled(old(View()), itsid)
      ensures View() == F.AfterPull(old(View()), itsid)
      ensures qstat'.empty <==> View().items == []
      ensures qstat'.validrv <==> item.Some? || (F.Permitted(old(View()), itsid) && qstat.validrv)
      ensures qstat'.endbatch == qstat.endbatch && qstat'.called == qstat.called
      ensures deqIndexes == if item.Some? then old(deqIndexes)[1..] else old(deqIndexes)
      ensures itemIndex == if item.Some? then old(deqIndexes)[0] else -1
    {
      itemIndex := -1;
      qstat' := qstat;
      item := None;
      if occupant >= 0 && occupant != itsid {
        qstat' := qstat'.(empty := true);
        if |itsQ| > 0 {
          qstat' := qstat'.(empty := false);
        }
        qstat' := qstat'.(validrv := false);
        return;
      }
      if |itsQ| > 0 {
        item := Some(itsQ[0]);
        itemIndex := deqIndexes[0];
        deqIndexes := deqIndexes[1..];
        itsQ := itsQ[1..];
        qstat' := qstat'.(validrv := true);
        if |itsQ| > 0 {
          occupant := itsid;
          qstat' := qstat'.(empty := false);
        } else {
          occupant := -1;
          qstat' := qstat'.(empty := true);
        }
      } else {
        occupant := -1;
        qstat' := qstat'.(empty := true);
      }
    }

    method Pull() returns (item: Option<T>)
      requires Valid()
      modifies this
      ensures Valid()
      ensures item == F.Pulled(old(View()), -1) && View() == F.AfterPull(old(View()), -1)
    {
      var index, qstat;
      item, index, qstat := PullAndOccupyWithId(-1, NO_STATUS);
    }

    method UnoccupyWithId(itsid: int)
      requires Valid()
      modifies this`occupant
      ensures Valid() && View() == F.Step(old(View()), F.UnoccupyWithId(itsid))
      ensures occupant == (if old(occupant) == itsid then -1 else old(occupant)) && itsQ == old(itsQ)
    {
      if occupant == itsid {
        occupant := -1;
      }
    }

    method Unoccupy()
      requires Valid()
      modifies this`occupant
      ensures Valid() && View() == F.Step(old(View()), F.Unoccupy)
      ensures occupant == -1 && itsQ == old(itsQ)
    {
      occupant := -1;
    }

    method CastObject(item: T, index: int) returns (r: bool)
      requires Valid()
      modifies this
      ensures Valid() && View() == F.Step(old(View()), F.Cast(item)) && r
      ensures itsQ == old(itsQ) + [item] && deqIndexes == old(deqIndexes) + [index]
    {
      deqIndexes := deqIndexes + [index];
      itsQ := itsQ + [item];
      r := true;
    }

    /** Indexes are recorded, but the items are not stored. */
    method CastVector(data: seq<T>) returns (r: bool)
      requires Valid()
      modifies this`deqIndexes
      ensures Valid() && View() == F.Step(old(View()), F.CastVector(data)) && !r
      ensures deqIndexes == old(deqIndexes) + seq(|data|, i => i)
    {
      var t := 0;
      while t < |data|
        invariant 0 <= t <= |data|
        invariant deqIndexes == old(deqIndexes) + seq(t, i => i)
      {
        deqIndexes := deqIndexes + [t];
        t := t + 1;
      }
      r := false;
    }

    /** Contents and indexes go, the owner stays: a queue reset while it is owned is empty and
      * still closed to everybody else. */
    method Reset()
      requires Valid()
      modifies this
      ensures View() == F.Fifo([], old(occupant)) && deqIndexes == []
      ensures Valid() <==> old(occupant) == -1
    {
      itsQ := [];
      deqIndexes := [];
    }
  }
}
