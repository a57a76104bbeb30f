/** The batching queue and its wrappers as objects updated in place. */
module BatchingQueues {
  import opened Sequences
  import opened BatchSpec

  /** One batch in the queue. `discarded` is its producer's last write to it. */
  class WrapBQ<T> {
    var many: seq<T>
    var discarded: bool

    constructor ()
      ensures many == [] && !discarded
    {
      many, discarded := [], false;
    }
  }

  /** The wrappers whose producer has made its last write. */
  ghost function Discarded<T>(wraps: seq<WrapBQ<T>>): (gone: set<WrapBQ<T>>)
    reads wraps
  {
    set w | w in wraps && w.discarded
  }

  class BatchingQueue<T> {
    var itsBQ: seq<WrapBQ<T>>
    var itsRelaxingQ: seq<WrapBQ<T>>
    var tempWBQ: WrapBQ<T>
    var netCount: int
    var minQSize: int
    var batchLimitUpper: int64
    var batchLimitLower: int64
    var paused: bool
    ghost var Batches: seq<seq<T>>   // what the queued wrappers hold
    ghost var Repr: set<object>

    /** `netCount` is redundant: it always equals the sum of the batch sizes. No wrapper is in two places or
      * twice in one, and the candidate is not marked as discarded. */
    ghost predicate Valid()
      reads this, Repr
      ensures Valid() ==> this in Repr
    {
      && this in Repr
      && tempWBQ in Repr
      && |Batches| == |itsBQ|
      && (forall i | 0 <= i < |itsBQ| ::
            itsBQ[i] in Repr && itsBQ[i] != tempWBQ && itsBQ[i].many == Batches[i])
      && NoDuplicates(itsBQ) && NoDuplicates(itsRelaxingQ)
      && (forall w | w in itsRelaxingQ :: w !in itsBQ && w != tempWBQ)
      && !tempWBQ.discarded
      && netCount == TotalSize(Batches)
      && minQSize == 0
      && AllNonEmpty(Batches)
      && Unsigned(batchLimitLower) <= Unsigned(batchLimitUpper)
    }

    ghost function View(): (s: Batching<T>)
      reads this, tempWBQ
    {
      Batching(Batches, tempWBQ.many, batchLimitLower, batchLimitUpper, paused)
    }

    constructor ()
      ensures Valid() && fresh(Repr)
      ensures View() == Empty()
      ensures itsRelaxingQ == [] && itsBQ == []
    {
      itsBQ, itsRelaxingQ := [], [];
      tempWBQ := new WrapBQ<T>();
      netCount, minQSize := 0, 0;
      batchLimitUpper, batchLimitLower := Signed(TWO64 - 1), 0;
      paused := false;
      Batches := [];
      new;
      Repr := {this, tempWBQ};
    }

    /** One relaxation pass: the queue of drained wrappers is rotated once and the wrappers whose
      * producer is done with them are dropped. */
    method ClearRelaxQ()
      requires Valid()
      modifies this`itsRelaxingQ
      ensures Valid()
      ensures itsRelaxingQ == Without(old(itsRelaxingQ), Discarded(old(itsRelaxingQ)))
      ensures forall w | w in itsRelaxingQ :: w in old(itsRelaxingQ) && !w.discarded
      ensures forall w | w in old(itsRelaxingQ) :: w.discarded || w in itsRelaxingQ
    {
      var c := |itsRelaxingQ|;
      ghost var before, gone := itsRelaxingQ, Discarded(itsRelaxingQ);
      ghost var done := 0;
      while c != 0
        invariant 0 <= done <= |before| && c == |before| - done
        invariant itsRelaxingQ == before[done..] + Without(before[..done], gone)
      {
        RotateOne(before, done, gone);
        var wrap := itsRelaxingQ[0];
        itsRelaxingQ := itsRelaxingQ[1..];
        if !wrap.discarded {
          itsRelaxingQ := itsRelaxingQ + [wrap];
        }
        c, done := c - 1, done + 1;
      }
      assert before[..done] == before;
      WithoutKeeps(before, gone);
    }

    method SetUpperBatchLimit(limit: uint64) returns (r: bool)
      requires Valid()
      modifies this`batchLimitUpper
      ensures Valid()
      ensures (View(), Answer(r)) == Step(old(View()), SetUpper(limit))
      ensures r <==> limit >= Unsigned(batchLimitLower)
      ensures Unsigned(batchLimitUpper) == if r then limit else Unsigned(old(batchLimitUpper))
    {
      r := true;
      if limit < Unsigned(batchLimitLower) {
        r := false;
        return;
      }
      batchLimitUpper := Signed(limit);
    }

    method SetLowerBatchLimit(limit: uint64) returns (r: bool)
      requires Valid()
      modifies this`batchLimitLower
      ensures Valid()
      ensures (View(), Answer(r)) == Step(old(View()), SetLower(limit))
      ensures r <==> limit <= Unsigned(batchLimitUpper)
      ensures Unsigned(batchLimitLower) == if r then limit else Unsigned(old(batchLimitLower))
    {
      r := true;
      if limit > Unsigned(batchLimitUpper) {
        r := false;
        return;
      }
      batchLimitLower := Signed(limit);
    }

    /** The locked part of every enqueueing operation: the batch goes to the back and `netCount`
      * grows by the number of its items. */
    method PushBatch(wrap: WrapBQ<T>, count: nat)
      requires Valid()
      requires wrap !in itsBQ && wrap !in itsRelaxingQ && wrap != tempWBQ
      requires count == |wrap.many| > 0
      modifies this`itsBQ, this`netCount, this`Batches, this`Repr
      ensures Valid() && Repr == old(Repr) + {wrap}
      ensures View() == old(View()).(batches := old(View()).batches + [wrap.many])
      ensures itsBQ == old(itsBQ) + [wrap]
    {
      SizeAppend(Batches, wrap.many);
      itsBQ := itsBQ + [wrap];
      netCount := netCount + count;
      Batches := Batches + [wrap.many];
      Repr := Repr + {wrap};
    }

    method CastObject(item: T) returns (r: bool)
      requires Valid()
      modifies Repr
      ensures Valid() && fresh(Repr - old(Repr))
      ensures (View(), Answer(r)) == Step(old(View()), Cast(item))
      ensures |itsBQ| == |old(itsBQ)| + 1 && itsBQ[..|old(itsBQ)|] == old(itsBQ)
      ensures var wrap := itsBQ[|old(itsBQ)|]; fresh(wrap) && wrap.many == [item] && wrap.discarded
      ensures itsRelaxingQ == Without(old(itsRelaxingQ), old(Discarded(itsRelaxingQ)))
    {
      ClearRelaxQ();
      var wrap := new WrapBQ<T>();
      wrap.many := wrap.many + [item];
      assert wrap.many == [item];
      PushBatch(wrap, 1);
      wrap.discarded := true;
      r := true;
    }

    method CastObjectToBatch(obj: T, present: bool) returns (r: bool)
      requires Valid()
      modifies Repr
      ensures Valid() && Repr == old(Repr)
      ensures (View(), Answer(r)) == Step(old(View()), AddToBatch(obj, present))
      ensures r == present && tempWBQ == old(tempWBQ)
      ensures tempWBQ.many == old(tempWBQ.many) + if present then [obj] else []
      ensures itsRelaxingQ == Without(old(itsRelaxingQ), old(Discarded(itsRelaxingQ)))
    {
      ClearRelaxQ();
      r := false;
      if present {
        tempWBQ.many := tempWBQ.many + [obj];
        r := true;
      }
    }

    method CommitBatch(force: bool) returns (r: bool)
      requires Valid()
      modifies Repr
      ensures Valid() && fresh(Repr - old(Repr))
      ensures (View(), Answer(r)) == Step(old(View()), Commit(force))
      ensures var n := |old(tempWBQ.many)|;
              r <==> n > 0 && (force || Unsigned(batchLimitLower) <= n <= Unsigned(batchLimitUpper))
      ensures itsBQ == old(itsBQ) + (if r then [old(tempWBQ)] else []) && !old(tempWBQ).discarded
      ensures itsRelaxingQ == Without(old(itsRelaxingQ), old(Discarded(itsRelaxingQ)))
    {
      ClearRelaxQ();
      r := false;
      if !force {
        if Unsigned(batchLimitLower) > |tempWBQ.many| || Unsigned(batchLimitUpper) < |tempWBQ.many| {
          return;
        }
      }
      if |tempWBQ.many| > 0 {
        PushCandidate();
        r := true;
      }
    }

    /** The candidate is enqueued and a new one begun. */
    method PushCandidate()
      requires Valid() && tempWBQ.many != []
      modifies this`itsBQ, this`netCount, this`Batches, this`Repr, this`tempWBQ
      ensures Valid() && fresh(Repr - old(Repr))
      ensures View() == Step(old(View()), Commit(true)).0
      ensures itsBQ == old(itsBQ) + [old(tempWBQ)] && fresh(tempWBQ)
    {
      var full := tempWBQ;
      tempWBQ := new WrapBQ<T>();
      Repr := Repr + {tempWBQ};
      PushBatch(full, |full.many|);
    }

    method DropCandidate() returns (r: bool)
      requires Valid()
      modifies Repr
      ensures Valid() && Repr == old(Repr)
      ensures (View(), Answer(r)) == Step(old(View()), BatchSpec.ResetBatch)
      ensures r == (old(tempWBQ.many) != []) && tempWBQ.many == [] && itsBQ == old(itsBQ)
    {
      ClearRelaxQ();
      r := false;
      if |tempWBQ.many| > 0 {
        tempWBQ.many := [];
        r := true;
      }
    }

    /** The locked part of a pull that finds an item. A drained wrapper leaves the queue for the
      * relaxation queue. */
    method PopItem() returns (item: T)
      requires Valid() && itsBQ != []
      modifies this, itsBQ[0]
      ensures Valid() && Repr == old(Repr)
      ensures item == old(View()).batches[0][0]
      ensures View() == old(View()).(batches := WithoutFirst(old(View()).batches))
      ensures itsRelaxingQ == old(itsRelaxingQ) + (if |old(itsBQ[0].many)| == 1 then [old(itsBQ)[0]] else [])
      ensures itsBQ == if |old(itsBQ[0].many)| == 1 then old(itsBQ)[1..] else old(itsBQ)
    {
      SizeAfterPull(Batches);
      ghost var before := itsBQ;
      var wrap := itsBQ[0];
      item := wrap.many[0];
      wrap.many := wrap.many[1..];
      netCount := netCount - 1;
      Batches := WithoutFirst(Batches);
      if |wrap.many| == 0 {
        itsBQ := itsBQ[1..];
        assert forall i | 0 <= i < |itsBQ| :: itsBQ[i] == before[i + 1];
        OneMoreNoDuplicates(itsRelaxingQ, wrap, []);
        assert itsRelaxingQ + [] == itsRelaxingQ && itsRelaxingQ + [wrap] + [] == itsRelaxingQ + [wrap];
        itsRelaxingQ := itsRelaxingQ + [wrap];
      }
    }

    /** The non-blocking pull. */
    method Pull() returns (item: Option<T>)
      requires Valid()
      modifies Repr
      ensures Valid() && Repr == old(Repr)
      ensures (View(), if item.Some? then Got(item.value) else Missed) == Step(old(View()), BatchSpec.Pull)
      ensures item.Some? <==> !paused && old(itsBQ) != []
      ensures item.Some? ==> item.value == old(itsBQ[0].many[0])
      ensures var drained := item.Some? && |old(itsBQ[0].many)| == 1;
              && itsBQ == (if drained then old(itsBQ)[1..] else old(itsBQ))
              && itsRelaxingQ == Without(old(itsRelaxingQ), old(Discarded(itsRelaxingQ)))
                                   + (if drained then [old(itsBQ)[0]] else [])
    {
      ClearRelaxQ();
      item := None;
      if paused {
        return;
      }
      EmptyOrNot(Batches);
      if netCount > minQSize {
        if |itsBQ[0].many| > 0 {
          var subitem := PopItem();
          item := Some(subitem);
        }
      }
    }

    method Purge()
      requires Valid()
      modifies this`itsBQ, this`netCount, this`Batches
      ensures Valid()
      ensures View() == Step(old(View()), BatchSpec.Purge).0
      ensures itsRelaxingQ == old(itsRelaxingQ) && itsBQ == []
    {
      itsBQ := [];
      netCount := 0;
      Batches := [];
    }

    method Reset()
      requires Valid()
      modifies Repr
      ensures Valid() && Repr == old(Repr)
      ensures View() == Empty()
      ensures itsBQ == [] && tempWBQ.many == [] && !paused
      ensures Unsigned(batchLimitLower) == 0 && Unsigned(batchLimitUpper) == TWO64 - 1
    {
      Purge();
      tempWBQ.many := [];
      batchLimitUpper, batchLimitLower := Signed(TWO64 - 1), 0;
      paused := false;
      netCount := 0;
      minQSize := 0;
      ClearRelaxQ();
    }

    method SetPaused(on: bool)
      requires Valid()
      modifies this`itsRelaxingQ, this`paused
      ensures Valid()
      ensures View() == Step(old(View()), if on then Pause else Resume).0
      ensures paused == on
    {
      ClearRelaxQ();
      paused := on;
    }

    method Size() returns (n: int)
      requires Valid()
      modifies this`itsRelaxingQ
      ensures Valid()
      ensures View() == old(View())
      ensures n == |Flatten(View().batches)|
    {
      ClearRelaxQ();
      n := netCount;
      FlattenSize(Batches);
    }

    method IsEmpty() returns (r: bool)
      requires Valid()
      modifies this`itsRelaxingQ
      ensures Valid()
      ensures View() == old(View())
      ensures r <==> Flatten(View().batches) == []
    {
      ClearRelaxQ();
      r := |itsBQ| == 0;
      EmptyOrNot(Batches);
    }
  }

  /** A rotation that has come as far as `done`, and its next step. */
  lemma RotateOne<W>(before: seq<W>, done: nat, gone: set<W>)
    requires done < |before|
    ensures var q := before[done..] + Without(before[..done], gone);
            && q[0] == before[done]
            && q[1..] + (if before[done] in gone then [] else [before[done]])
                 == before[done + 1..] + Without(before[..done + 1], gone)
  {
    var kept := Without(before[..done], gone);
    assert before[..done + 1][..done] == before[..done];
    assert (before[done..] + kept)[1..] == before[done + 1..] + kept;
  }

  lemma SizeAfterPull<T>(batches: seq<seq<T>>)
    requires AllNonEmpty(batches) && batches != []
    ensures TotalSize(WithoutFirst(batches)) == TotalSize(batches) - 1
    ensures AllNonEmpty(WithoutFirst(batches))
  {
    PullFront(batches);
    FlattenSize(batches);
    FlattenSize(WithoutFirst(batches));
  }

  lemma SizeAppend<T>(batches: seq<seq<T>>, batch: seq<T>)
    ensures TotalSize(batches + [batch]) == TotalSize(batches) + |batch|
  {
    FlattenAppend(batches, [batch]);
    FlattenOne(batch);
    FlattenSize(batches);
    FlattenSize(batches + [batch]);
  }
}
