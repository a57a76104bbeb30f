/** The two batch queues that hold a drained batch until it is released. They differ only in
  * whether a held batch closes the queue, which is `policy`. */
module ReleaseQueues {
  import opened Sequences
  import opened BatchingQueues
  import S = ReleaseSpec

  class ReleaseQueue<T> {
    const policy: S.Policy
    var itsBQ: seq<WrapBQ<T>>
    var deferred: seq<WrapBQ<T>>
    var itsRelaxingQ: seq<WrapBQ<T>>
    var netCount: int
    var blockingW: bool
    ghost var Batches: seq<seq<T>>   // what the queued wrappers hold
    ghost var Repr: set<object>

    ghost predicate Valid()
      reads this, Repr
      ensures Valid() ==> this in Repr
    {
      && this in Repr
      && |Batches| == |itsBQ|
      && (forall i | 0 <= i < |itsBQ| :: itsBQ[i] in Repr && itsBQ[i].many == Batches[i])
      && NoDuplicates(itsBQ) && NoDuplicates(itsRelaxingQ + deferred)
      && (forall w | w in itsBQ :: w !in itsRelaxingQ && w !in deferred)
    }

    ghost function View(): (s: S.Held<T>)
      reads this
    {
      S.Held(Batches, |deferred|)
    }

    constructor (policy: S.Policy, blkW: bool)
      ensures Valid() && fresh(Repr)
      ensures View() == S.Held([], 0) && netCount == 0 && itsBQ == []
      ensures blockingW == blkW && this.policy == policy
    {
      this.policy := policy;
      itsBQ, deferred, itsRelaxingQ := [], [], [];
      netCount := 0;
      blockingW := blkW;
      Batches := [];
      Repr := {this};
    }

    method PushBatch(wrap: WrapBQ<T>)
      requires Valid() && wrap !in itsBQ && wrap !in itsRelaxingQ && wrap !in deferred
      modifies this`itsBQ, this`netCount, this`Batches, this`Repr
      ensures Valid() && Repr == old(Repr) + {wrap}
      ensures View() == S.Step(old(View()), policy, S.Cast(wrap.many)) && Batches == old(Batches) + [wrap.many]
      ensures netCount == old(netCount) + 1
    {
      itsBQ := itsBQ + [wrap];
      netCount := netCount + 1;
      Batches := Batches + [wrap.many];
      Repr := Repr + {wrap};
    }

    method CastObject(item: T) returns (r: bool)
      requires Valid()
      modifies Repr
      ensures Valid() && fresh(Repr - old(Repr)) && r
      ensures View() == S.Step(old(View()), policy, S.Cast([item])) && Batches == old(Batches) + [[item]]
      ensures netCount == old(netCount) + 1 && blockingW == old(blockingW)
    {
      var wrap := new WrapBQ<T>();
      wrap.many := wrap.many + [item];
      assert wrap.many == [item];
      PushBatch(wrap);
      r := true;
    }

    /** `netCount` grows by one whatever the size of the vector. */
    method CastVector(items: seq<T>) returns (r: bool)
      requires Valid()
      modifies Repr
      ensures Valid() && fresh(Repr - old(Repr)) && r
      ensures View() == S.Step(old(View()), policy, S.Cast(items)) && Batches == old(Batches) + [items]
      ensures netCount == old(netCount) + 1 && blockingW == old(blockingW)
    {
      var wrap := new WrapBQ<T>();
      var i := 0;
      while i < |items|
        invariant 0 <= i <= |items|
        invariant wrap.many == items[..i]
        modifies wrap
      {
        wrap.many := wrap.many + [items[i]];
        i := i + 1;
      }
      assert wrap.many == items;
      PushBatch(wrap);
      r := true;
    }

    /** A drained wrapper is deferred when writers block and relaxed otherwise. */
    method PopItem() returns (item: T, endBatch: bool)
      requires Valid()
      requires itsBQ != [] && itsBQ[0].many != []
      modifies this, itsBQ[0]
      ensures Valid() && Repr == old(Repr) && blockingW == old(blockingW)
      ensures item == old(Batches)[0][0] && (endBatch <==> |old(Batches)[0]| == 1)
      ensures Batches == WithoutFirst(old(Batches)) && netCount == old(netCount) - 1
      ensures deferred == old(deferred) + (if endBatch && blockingW then [old(itsBQ)[0]] else [])
      ensures itsRelaxingQ == old(itsRelaxingQ) + (if endBatch && !blockingW then [old(itsBQ)[0]] else [])
    {
      endBatch := false;
      ghost var before := itsBQ;
      var wrap := itsBQ[0];
      item := wrap.many[0];
      wrap.many := wrap.many[1..];
      netCount := netCount - 1;
      Batches := WithoutFirst(Batches);
      if |wrap.many| == 0 {
        itsBQ := itsBQ[1..];
        assert forall i | 0 <= i < |itsBQ| :: itsBQ[i] == before[i + 1];
        endBatch := true;
        assert wrap in before && forall w | w in itsBQ :: w in before && w != wrap;
        KeepsApart(itsRelaxingQ, deferred, wrap);
        if blockingW {
          deferred := deferred + [wrap];
        } else {
          itsRelaxingQ := itsRelaxingQ + [wrap];
        }
      }
    }

    /** `success` comes in as the caller left it. Wait-for-last sets it when it delivers and never clears
      * it; wait-for-first does not touch it, even when it delivers. */
    method PullAndBatchStatus(success0: bool) returns (item: Option<T>, endBatch: bool, success: bool)
      requires Valid()
      modifies Repr
      ensures success <==> success0 || (policy.WaitForLast? && item.Some?)
      ensures Valid() && Repr == old(Repr) && blockingW == old(blockingW)
      ensures item == if S.CanPull(old(View()), policy) then Some(old(Batches)[0][0]) else None
      ensures endBatch <==> S.CanPull(old(View()), policy) && |old(Batches)[0]| == 1
      ensures blockingW ==> View() == S.Step(old(View()), policy, S.Pull)
      ensures deferred == old(deferred) + (if endBatch && blockingW then [old(itsBQ)[0]] else [])
      ensures itsRelaxingQ == old(itsRelaxingQ) + (if endBatch && !blockingW then [old(itsBQ)[0]] else [])
      ensures Batches == if item.Some? then WithoutFirst(old(Batches)) else old(Batches)
      ensures netCount == old(netCount) - (if item.Some? then 1 else 0)
    {
      endBatch := false;
      success := success0;
      item := None;
      if policy.WaitForFirst? || |deferred| == 0 {
        if |itsBQ| > 0 {
          if |itsBQ[0].many| > 0 {
            var subitem;
            subitem, endBatch := PopItem();
            item := Some(subitem);
            if policy.WaitForLast? {
              success := true;
            }
          }
        }
      }
    }

    method ReleaseFirst()
      requires Valid()
      modifies this`deferred, this`itsRelaxingQ
      ensures Valid()
      ensures View() == S.Step(old(View()), policy, S.ReleaseFirst)
      ensures itsRelaxingQ == old(itsRelaxingQ) + (if old(deferred) != [] then [old(deferred)[0]] else [])
      ensures deferred == if old(deferred) != [] then old(deferred)[1..] else []
    {
      if |deferred| > 0 {
        var wrap := deferred[0];
        assert (itsRelaxingQ + [wrap]) + deferred[1..] == itsRelaxingQ + deferred;
        deferred := deferred[1..];
        itsRelaxingQ := itsRelaxingQ + [wrap];
      }
    }

    method ReleaseAll()
      requires Valid()
      modifies this`deferred, this`itsRelaxingQ
      ensures Valid()
      ensures View() == S.Step(old(View()), policy, S.ReleaseAll)
      ensures itsRelaxingQ == old(itsRelaxingQ + deferred) && deferred == []
    {
      var i := 0;
      while i < |deferred|
        invariant 0 <= i <= |deferred|
        invariant deferred == old(deferred)
        invariant itsRelaxingQ == old(itsRelaxingQ) + deferred[..i]
      {
        itsRelaxingQ := itsRelaxingQ + [deferred[i]];
        i := i + 1;
      }
      assert itsRelaxingQ + [] == old(itsRelaxingQ + deferred);
      deferred := [];
    }
  }

  lemma KeepsApart<W>(relaxing: seq<W>, deferred: seq<W>, wrap: W)
    requires NoDuplicates(relaxing + deferred) && wrap !in relaxing && wrap !in deferred
    ensures NoDuplicates(relaxing + (deferred + [wrap])) && NoDuplicates((relaxing + [wrap]) + deferred)
  {
    OneMoreNoDuplicates(relaxing, wrap, deferred);
    OneMoreNoDuplicates(relaxing + deferred, wrap, []);
    assert (relaxing + deferred) + [] == relaxing + deferred;
    assert (relaxing + deferred) + [wrap] + [] == relaxing + (deferred + [wrap]);
  }
}
