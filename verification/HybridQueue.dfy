/** The session queue that combines a batching queue, a queue of releasable batches and a
  * run-length record of which of the two the next items come from. */
module HybridQueues {
  import opened Sequences
  import opened BatchingQueues
  import B = BatchSpec
  import S = ReleaseSpec
  import F = OwnedFifos
  import opened ThreadpoolQueues
  import opened ReleaseQueues

  datatype Specificity = NONE | REG | BAT

  datatype CallMode = NoBlock | WaitForFirst | WaitForLast

  /** A run of `count` items that come from the same queue. */
  datatype Entry = Entry(kind: Specificity, count: int)

  function Promised(qmapper: seq<Entry>): (n: int) {
    if qmapper == [] then 0 else qmapper[0].count + Promised(qmapper[1..])
  }

  ghost predicate PositiveRegular(qmapper: seq<Entry>) {
    forall i | 0 <= i < |qmapper| :: qmapper[i].kind == REG && qmapper[i].count > 0
  }

  lemma {:induction false} PromisedAppend(qmapper: seq<Entry>, e: Entry)
    ensures Promised(qmapper + [e]) == Promised(qmapper) + e.count
  {
    if qmapper == [] {
      assert [e][1..] == [];
    } else {
      assert (qmapper + [e])[1..] == qmapper[1..] + [e];
      PromisedAppend(qmapper[1..], e);
    }
  }

  lemma {:induction false} PromisedNotNegative(qmapper: seq<Entry>)
    requires PositiveRegular(qmapper)
    ensures Promised(qmapper) >= 0
  {
    if qmapper != [] {
      PromisedNotNegative(qmapper[1..]);
    }
  }

  // ---- what the record promises, over runs ----

  /** By how much an operation changes what the record promises. */
  function PromisedBy<T>(f: F.Fifo<T>, op: F.Op<T>): (n: int) {
    match op
    case Cast(_) => 1
    case CastVector(data) => |data|
    case Pull(id) => if F.Pulled(f, id).Some? then -1 else 0
    case _ => 0
  }

  function PromisedAfter<T>(ops: seq<F.Op<T>>): (n: int) {
    if ops == [] then 0
    else PromisedAfter(ops[..|ops| - 1]) + PromisedBy(F.Run(F.Empty(), ops[..|ops| - 1]), ops[|ops| - 1])
  }

  function VectorItems<T>(ops: seq<F.Op<T>>): (n: nat) {
    if ops == [] then 0
    else VectorItems(ops[..|ops| - 1]) + (if ops[|ops| - 1].CastVector? then |ops[|ops| - 1].data| else 0)
  }

  /** The record promises what is stored and all the vector items ever cast. */
  lemma {:induction false} PromisesVectorsToo<T>(ops: seq<F.Op<T>>)
    ensures PromisedAfter(ops) == |F.Run(F.Empty(), ops).items| + VectorItems(ops)
  {
    if ops != [] {
      PromisesVectorsToo(ops[..|ops| - 1]);
      F.RunKeepsWellOwned(F.Empty<T>(), ops[..|ops| - 1]);
    }
  }

  lemma {:induction false} NoVectorItemsIff<T>(ops: seq<F.Op<T>>)
    ensures VectorItems(ops) == 0 <==> forall i | 0 <= i < |ops| :: ops[i].CastVector? ==> ops[i].data == []
  {
    if ops != [] {
      var before, op := ops[..|ops| - 1], ops[|ops| - 1];
      NoVectorItemsIff(before);
      assert forall i | 0 <= i < |before| :: before[i] == ops[i];
    }
  }

  /** The record is exact after a run if and only if no vector with items in it was cast. */
  lemma RecordExactIff<T>(ops: seq<F.Op<T>>)
    ensures PromisedAfter(ops) == |F.Run(F.Empty(), ops).items|
       <==> forall i | 0 <= i < |ops| :: ops[i].CastVector? ==> ops[i].data == []
  {
    PromisesVectorsToo(ops);
    NoVectorItemsIff(ops);
  }

  lemma AfterPullIs<T>(f: F.Fifo<T>, id: int, rest: seq<T>, owner: int)
    requires F.Permitted(f, id)
    requires rest == (if f.items != [] then f.items[1..] else []) && owner == (if rest != [] then id else -1)
    ensures F.Fifo(rest, owner) == F.AfterPull(f, id)
  {
  }

  class HybridQueue<T> {
    var deqIndexes: seq<int>
    var occupant: int
    var qmapper: seq<Entry>
    var lastItem: Specificity
    const regQ: BatchingQueue<T>
    const blkQ: ReleaseQueue?<T>
    ghost var Repr: set<object>

    /** The record names only the batching queue and promises at least the items stored there, and
      * nothing is ever stored in the other queue. */
    ghost predicate Consistent()
      reads this, Repr
      ensures Consistent() ==> this in Repr
    {
      && this in Repr && regQ in Repr && regQ.Repr <= Repr && this !in regQ.Repr
      && regQ.Valid()
      && !regQ.paused
      && (blkQ != null ==> blkQ in Repr && blkQ !in regQ.Repr && blkQ.netCount == 0 && blkQ.itsBQ == [])
      && PositiveRegular(qmapper)
      && |Items()| <= Promised(qmapper)
    }

    /** Besides, an empty queue has no owner. */
    ghost predicate Valid()
      reads this, Repr
      ensures Valid() ==> this in Repr
    {
      Consistent() && F.WellOwned(View())
    }

    ghost function Items(): (items: seq<T>)
      reads this, regQ
    {
      Flatten(regQ.Batches)
    }

    ghost function View(): (f: F.Fifo<T>)
      reads this, regQ
    {
      F.Fifo(Items(), occupant)
    }

    constructor (blockingMode: CallMode)
      ensures Valid() && fresh(Repr)
      ensures View() == F.Empty()
      ensures blkQ == null <==> blockingMode == NoBlock
      ensures blkQ != null ==>
                blkQ.blockingW && blkQ.policy == (if blockingMode == WaitForLast then S.WaitForLast else S.WaitForFirst)
      ensures Promised(qmapper) == 0
    {
      deqIndexes, occupant, qmapper, lastItem := [], -1, [], NONE;
      var reg := new BatchingQueue<T>();
      regQ := reg;
      if blockingMode == WaitForLast {
        var blk := new ReleaseQueue<T>(S.WaitForLast, true);
        blkQ := blk;
      } else if blockingMode == WaitForFirst {
        var blk := new ReleaseQueue<T>(S.WaitForFirst, true);
        blkQ := blk;
      } else {
        blkQ := null;
      }
      new;
      Repr := {this} + regQ.Repr + (if blkQ != null then {blkQ} else {});
    }

    /** The number of items in both queues. */
    method Size() returns (r: int)
      requires Consistent()
      modifies regQ`itsRelaxingQ
      ensures Consistent()
      ensures r == |View().items| && View() == old(View())
    {
      r := 0;
      if blkQ != null {
        r := blkQ.netCount;
      }
      var n := regQ.Size();
      r := n + r;
    }

    method CastObject(item: T, index: int) returns (r: bool)
      requires Valid()
      modifies Repr
      ensures Valid() && fresh(Repr - old(Repr)) && r
      ensures View() == F.Step(old(View()), F.Cast(item))
      ensures Items() == old(Items()) + [item] && occupant == old(occupant)
      ensures qmapper == old(qmapper) + [Entry(REG, 1)] && deqIndexes == old(deqIndexes) + [index]
      ensures Promised(qmapper) == Promised(old(qmapper)) + PromisedBy(old(View()), F.Cast(item))
    {
      deqIndexes := deqIndexes + [index];
      PromisedAppend(qmapper, Entry(REG, 1));
      FlattenAppend(regQ.Batches, [[item]]);
      FlattenOne([item]);
      qmapper := qmapper + [Entry(REG, 1)];
      var ok := regQ.CastObject(item);
      Repr := Repr + regQ.Repr;
      r := true;
    }

    /** The items are promised but, the batching queue's vector cast being switched off, they are
      * not stored. */
    method CastVector(data: seq<T>, index: int) returns (r: bool)
      requires Valid()
      modifies this`qmapper
      ensures Valid() && r
      ensures View() == F.Step(old(View()), F.CastVector(data))
      ensures Promised(qmapper) == Promised(old(qmapper)) + PromisedBy(old(View()), F.CastVector(data))
    {
      if |data| > 0 {
        PromisedAppend(qmapper, Entry(REG, |data|));
        qmapper := qmapper + [Entry(REG, |data|)];
      }
      r := true;
    }

    /** One item of the front run is used up. */
    method UseUpOne() returns (itemIndex: int)
      requires qmapper != [] && PositiveRegular(qmapper)
      modifies this`qmapper
      ensures PositiveRegular(qmapper)
      ensures Promised(qmapper) == Promised(old(qmapper)) - 1
      ensures itemIndex == old(qmapper)[0].count
    {
      var items := qmapper[0];
      itemIndex := items.count;
      items := items.(count := items.count - 1);
      if items.count > 0 {
        qmapper := [items] + qmapper[1..];
      } else {
        qmapper := qmapper[1..];
      }
    }

    /** Takes an item from the batching queue and uses up one item of the front run. */
    method TakeRegular() returns (item: Option<T>, itemIndex: int)
      requires Consistent() && qmapper != []
      modifies this`qmapper, regQ.Repr
      ensures Consistent() && lastItem == old(lastItem)
      ensures item == if old(Items()) != [] then Some(old(Items())[0]) else None
      ensures Items() == if item.Some? then old(Items())[1..] else []
      ensures itemIndex == if item.Some? then old(qmapper)[0].count else -1
      ensures Promised(qmapper) == Promised(old(qmapper)) - (if item.Some? then 1 else 0)
    {
      item, itemIndex := None, -1;
      B.EmptyOrNot(regQ.Batches);
      var n := regQ.Size();
      if n > 0 {
        B.PullFront(regQ.Batches);
        item := regQ.Pull();
        if item.Some? {
          itemIndex := UseUpOne();
        }
      }
    }

    /** After a pull that delivered and left items behind, `itsid` owns the queue; otherwise nobody
      * does and the batch is over. */
    method SettleOwner(itsid: int, qstat: QStatus) returns (qstat': QStatus)
      requires Consistent()
      modifies this`occupant, regQ`itsRelaxingQ
      ensures Consistent() && Items() == old(Items()) && qmapper == old(qmapper) && lastItem == old(lastItem)
      ensures var more := qstat.validrv && Items() != [];
              && occupant == (if more then itsid else -1)
              && qstat' == qstat.(empty := !more, endbatch := !more || qstat.endbatch)
    {
      qstat' := qstat;
      if qstat'.validrv {
        var all := Size();
        if all > 0 {
          occupant := itsid;
          qstat' := qstat'.(empty := false);
        } else {
          occupant := -1;
          qstat' := qstat'.(empty := true, endbatch := true);
        }
      } else {
        occupant := -1;
        qstat' := qstat'.(empty := true, endbatch := true);
      }
    }

    method PullAndOccupyWithId(itsid: int, qstat: QStatus)
      returns (item: Option<T>, itemIndex: int, qstat': QStatus)
      requires Valid()
      modifies Repr
      ensures Valid() && Repr == old(Repr)
      ensures item == F.Pulled(old(View()), itsid)
      ensures View() == F.AfterPull(old(View()), itsid)
      ensures qstat'.validrv <==> item.Some?
      ensures qstat'.empty <==> View().items == []
      ensures qstat'.endbatch <==> View().items == []
      ensures qstat'.called == qstat.called
      ensures itemIndex == if item.Some? then old(qmapper)[0].count else -1
      ensures Promised(qmapper) == Promised(old(qmapper)) + PromisedBy(old(View()), F.Op.Pull(itsid))
      ensures lastItem == if F.Permitted(old(View()), itsid) then (if old(qmapper) != [] then REG else NONE)
                         else old(lastItem)
    {
      itemIndex := -1;
      qstat' := qstat.(endbatch := false, validrv := false);
      item := None;
      if occupant >= 0 && occupant != itsid {
        qstat' := qstat'.(empty := true);
        var all := Size();
        if all > 0 {
          qstat' := qstat'.(empty := false);
        }
        return;
      }
      item, itemIndex, qstat' := PullPermitted(itsid, qstat');
    }

    /** The pull of somebody the queue is open to. */
    method PullPermitted(itsid: int, qstat: QStatus)
      returns (item: Option<T>, itemIndex: int, qstat': QStatus)
      requires Valid() && F.Permitted(View(), itsid) && !qstat.endbatch && !qstat.validrv
      modifies Repr
      ensures Valid() && Repr == old(Repr)
      ensures item == F.Pulled(old(View()), itsid) && View() == F.AfterPull(old(View()), itsid)
      ensures qstat' == QStatus(View().items == [], View().items == [], qstat.called, item.Some?)
      ensures itemIndex == if item.Some? then old(qmapper)[0].count else -1
      ensures Promised(qmapper) == Promised(old(qmapper)) + PromisedBy(old(View()), F.Op.Pull(itsid))
      ensures lastItem == if old(qmapper) != [] then REG else NONE
    {
      if |qmapper| > 0 {
        item, itemIndex, qstat' := PullRecorded(itsid, qstat);
      } else {
        assert Promised(qmapper) == 0 && Items() == [];
        lastItem := NONE;
        item, itemIndex := None, -1;
        qstat' := qstat.(empty := true, endbatch := true);
      }
    }

    /** The same when the record is not empty. */
    method PullRecorded(itsid: int, qstat: QStatus)
      returns (item: Option<T>, itemIndex: int, qstat': QStatus)
      requires Valid() && F.Permitted(View(), itsid) && !qstat.endbatch && !qstat.validrv && qmapper != []
      modifies Repr
      ensures Valid() && Repr == old(Repr)
      ensures item == F.Pulled(old(View()), itsid) && View() == F.AfterPull(old(View()), itsid)
      ensures qstat' == QStatus(View().items == [], View().items == [], qstat.called, item.Some?)
      ensures itemIndex == if item.Some? then old(qmapper)[0].count else -1
      ensures Promised(qmapper) == Promised(old(qmapper)) + PromisedBy(old(View()), F.Op.Pull(itsid))
      ensures lastItem == REG
    {
      ghost var f := View();
      item, itemIndex := None, -1;
      qstat' := qstat;
      if qmapper[0].kind == REG {
        if lastItem != REG {
          lastItem := REG;
        }
        item, itemIndex := TakeRegular();
        if item.Some? {
          qstat' := qstat'.(validrv := true);
        }
      } else {
        assert false; // the record never names the other queue
      }
      assert item == F.Pulled(f, itsid) && Items() == if f.items != [] then f.items[1..] else [];
      assert Promised(qmapper) == Promised(old(qmapper)) + PromisedBy(f, F.Op.Pull(itsid));
      qstat' := SettleOwner(itsid, qstat');
      AfterPullIs(f, itsid, Items(), occupant);
    }

    method Pull() returns (item: Option<T>)
      requires Valid()
      modifies Repr
      ensures Valid() && Repr == old(Repr)
      ensures item == F.Pulled(old(View()), -1) && View() == F.AfterPull(old(View()), -1)
      ensures Promised(qmapper) == Promised(old(qmapper)) + PromisedBy(old(View()), F.Op.Pull(-1))
    {
      var index, qstat;
      item, index, qstat := PullAndOccupyWithId(-1, NO_STATUS);
    }

    method UnoccupyWithId(itsid: int)
      requires Valid()
      modifies this`occupant
      ensures Valid() && View() == F.Step(old(View()), F.UnoccupyWithId(itsid))
      ensures occupant == (if old(occupant) == itsid then -1 else old(occupant)) && Items() == old(Items())
    {
      if occupant == itsid {
        occupant := -1;
      }
    }

    method Unoccupy()
      requires Valid()
      modifies this`occupant
      ensures Valid() && View() == F.Step(old(View()), F.Unoccupy)
      ensures occupant == -1 && Items() == old(Items())
    {
      occupant := -1;
    }
  }
}
