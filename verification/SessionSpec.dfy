/** What a composing session does to its queues and routine lists. */
module SessionSpec {
  import opened Sequences
  import opened Collectors
  import F = OwnedFifos
  import H = HotSwap

  /** The queue for items posted before there is a data queue, the data queue, and the routine
    * lists. */
  datatype Session<R, T> = Session(zero: F.Fifo<T>, dq: Option<F.Fifo<T>>, routines: H.Slots<seq<R>>)

  function Init<R, T>(): (s: Session<R, T>) {
    Session(F.Empty(), None, H.Fresh([]))
  }

  /** A data queue exists exactly when the list of routines being read is not empty, and nobody ever
    * owns the early queue. */
  ghost predicate Consistent<R, T>(s: Session<R, T>) {
    && H.Proper(s.routines)
    && (s.dq.Some? <==> H.Current(s.routines) != [])
    && s.zero.owner == -1
    && (s.dq.Some? ==> F.WellOwned(s.dq.value))
  }

  function Post<R, T>(s: Session<R, T>, x: T): (s': Session<R, T>) {
    if s.dq.None? then s.(zero := F.Step(s.zero, F.Cast(x)))
    else s.(dq := Some(F.Step(s.dq.value, F.Cast(x))))
  }

  /** A vector goes to the same queue, but neither queue stores its items. */
  function PostVector<R, T>(s: Session<R, T>, data: seq<T>): (s': Session<R, T>) {
    if s.dq.None? then s.(zero := F.Step(s.zero, F.CastVector(data)))
    else s.(dq := Some(F.Step(s.dq.value, F.CastVector(data))))
  }

  /** The early queue is emptied once there is a data queue; its items are not moved over. */
  function Adopt<R, T>(s: Session<R, T>): (s': Session<R, T>) {
    if s.zero.items != [] && s.dq.Some? then s.(zero := s.zero.(items := [])) else s
  }

  function SetRoutines<R, T>(s: Session<R, T>, list: seq<R>): (s': Session<R, T>)
    requires H.Proper(s.routines)
  {
    s.(routines := H.Step(s.routines, H.Set(list)))
  }

  /** The worker's look at the routine lists: an effective switch replaces the data queue by an empty
    * one, or by none when the new list is empty. */
  function Reload<R, T>(s: Session<R, T>): (s': Session<R, T>)
    requires H.Proper(s.routines)
  {
    if !s.routines.reload then s
    else
      var r := H.Step(s.routines, H.Switch);
      Session(s.zero, if H.Current(r) != [] then Some(F.Empty()) else None, r)
  }

  /** What a drain hands over: pulling a null looks to it like pulling nothing. */
  function UpToNull(items: seq<Ptr>): (taken: seq<Ptr>) {
    if items == [] || items[0] == Null then [] else [items[0]] + UpToNull(items[1..])
  }

  /** What a drain leaves: a null that ends it has been pulled. */
  function BehindNull(items: seq<Ptr>): (left: seq<Ptr>) {
    if items == [] then [] else if items[0] == Null then items[1..] else BehindNull(items[1..])
  }

  /** The two drains of a flush together, from what had been handed over before. */
  lemma FlushHands<R>(before: seq<Ptr>, s: Session<R, Ptr>, autodelete: bool)
    ensures before + (if autodelete then UpToNull(s.zero.items) else [])
                   + (if autodelete && s.dq.Some? && s.dq.value.owner < 0 then UpToNull(s.dq.value.items) else [])
         == before + (if autodelete then FlushedItems(s) else [])
  {
  }

  /** One pull of a drain: the queue after it, what is handed over, and whether the drain goes on. */
  function DrainStep(q: F.Fifo<Ptr>): (r: (F.Fifo<Ptr>, seq<Ptr>, bool)) {
    var item := F.Pulled(q, -1);
    var more := item.Some? && item.value != Null;
    (F.AfterPull(q, -1), if more then [item.value] else [], more)
  }

  /** A drain that began with queue `before` has handed over `done` and is at `now`; an owned queue
    * stays as it is. */
  ghost predicate Drains(before: F.Fifo<Ptr>, now: F.Fifo<Ptr>, done: seq<Ptr>, more: bool) {
    if before.owner >= 0 then now == before && done == []
    else
      && now.owner < 0
      && (if more then BehindNull(now.items) == BehindNull(before.items)
                       && done + UpToNull(now.items) == UpToNull(before.items)
          else now.items == BehindNull(before.items) && done == UpToNull(before.items))
  }

  lemma DrainStepDrains(before: F.Fifo<Ptr>, now: F.Fifo<Ptr>, done: seq<Ptr>)
    requires Drains(before, now, done, true)
    ensures var (next, taken, more) := DrainStep(now);
            Drains(before, next, done + taken, more) && (more ==> |next.items| < |now.items|)
  {
    if before.owner < 0 && now.items != [] && now.items[0] != Null {
      assert (done + [now.items[0]]) + UpToNull(now.items[1..]) == done + UpToNull(now.items);
      assert F.AfterPull(now, -1).items == now.items[1..];
    }
  }

  /** The items a flush takes away: an owned data queue keeps its own. */
  function FlushedItems<R>(s: Session<R, Ptr>): (items: seq<Ptr>) {
    UpToNull(s.zero.items) + (if s.dq.Some? && s.dq.value.owner < 0 then UpToNull(s.dq.value.items) else [])
  }

  function Flush<R>(s: Session<R, Ptr>): (s': Session<R, Ptr>) {
    var zero := s.zero.(items := BehindNull(s.zero.items));
    if s.dq.None? then s.(zero := zero)
    else
      var q := s.dq.value;
      s.(zero := zero, dq := Some(F.Fifo(if q.owner < 0 then BehindNull(q.items) else q.items, -1)))
  }

  /** What the worker does before every pull: a requested flush, then the look at the routines. */
  function Prepare<R>(s: Session<R, Ptr>, flushRequested: bool): (s': Session<R, Ptr>)
    requires H.Proper(s.routines)
  {
    Reload(if flushRequested then Flush(s) else s)
  }

  function Unoccupied<R, T>(s: Session<R, T>): (s': Session<R, T>) {
    if s.dq.None? then s else s.(dq := Some(F.Step(s.dq.value, F.Unoccupy)))
  }

  lemma OperationsKeepConsistent<R>(s: Session<R, Ptr>, x: Ptr, data: seq<Ptr>, list: seq<R>)
    requires Consistent(s)
    ensures Consistent(Post(s, x)) && Consistent(PostVector(s, data)) && Consistent(Adopt(s))
    ensures Consistent(SetRoutines(s, list)) && Consistent(Reload(s)) && Consistent(Flush(s))
    ensures Consistent(Unoccupied(s))
  {
  }

  // ---- what a flush achieves ----

  /** A null anywhere but at the end. */
  ghost predicate NullInside(items: seq<Ptr>) {
    exists i :: 0 <= i < |items| - 1 && items[i] == Null
  }

  /** A drain empties a queue exactly when no null is queued before its last item, and hands over
    * everything exactly when there is no null. */
  lemma {:induction false} DrainsIff(items: seq<Ptr>)
    ensures BehindNull(items) == [] <==> !NullInside(items)
    ensures UpToNull(items) == items <==> Null !in items
  {
    if items != [] && items[0] != Null {
      DrainsIff(items[1..]);
      assert items == [items[0]] + items[1..];
      if NullInside(items) {
        var i :| 0 <= i < |items| - 1 && items[i] == Null;
        assert items[1..][i - 1] == Null;
      }
      if NullInside(items[1..]) {
        var i :| 0 <= i < |items[1..]| - 1 && items[1..][i] == Null;
        assert items[i + 1] == Null;
      }
    } else if items != [] {
      assert |items| > 1 ==> items[0] == Null && NullInside(items);
    }
  }

  /** A flush leaves nothing queued exactly when no queue it drains holds a null before its last item
    * and nobody owns the data queue. */
  lemma FlushEmptiesIff<R>(s: Session<R, Ptr>)
    requires Consistent(s)
    ensures Flush(s).zero.items == [] && (s.dq.Some? ==> Flush(s).dq.value.items == [])
       <==> !NullInside(s.zero.items) && (s.dq.Some? ==> s.dq.value.owner < 0 && !NullInside(s.dq.value.items))
  {
    DrainsIff(s.zero.items);
    if s.dq.Some? {
      DrainsIff(s.dq.value.items);
    }
  }

  /** Without nulls everything queued is handed over, early items first, each queue in order, unless
    * somebody owns the data queue. */
  lemma FlushTakesAll<R>(s: Session<R, Ptr>)
    requires Null !in s.zero.items && (s.dq.Some? ==> Null !in s.dq.value.items)
    ensures FlushedItems(s) == s.zero.items + (if s.dq.Some? && s.dq.value.owner < 0 then s.dq.value.items else [])
  {
    DrainsIff(s.zero.items);
    if s.dq.Some? {
      DrainsIff(s.dq.value.items);
    }
  }

  /** Whatever a flush finds, afterwards nobody owns the data queue, there is one exactly if there was one,
    * an owned one has kept its items, and the routine lists are as before. */
  lemma FlushFrees<R>(s: Session<R, Ptr>)
    ensures Flush(s).dq.Some? == s.dq.Some? && Flush(s).routines == s.routines && Flush(s).zero.owner == s.zero.owner
    ensures s.dq.Some? ==> Flush(s).dq.value.owner == -1
    ensures s.dq.Some? && s.dq.value.owner >= 0 ==> Flush(s).dq.value.items == s.dq.value.items
  {
  }

  function PostAll<R, T>(s: Session<R, T>, xs: seq<T>): (s': Session<R, T>)
    decreases |xs|
  {
    if xs == [] then s else PostAll(Post(s, xs[0]), xs[1..])
  }

  lemma {:induction false} PostAllAppends<R, T>(s: Session<R, T>, xs: seq<T>)
    ensures var s' := PostAll(s, xs);
            if s.dq.None? then s' == s.(zero := s.zero.(items := s.zero.items + xs))
            else s' == s.(dq := Some(s.dq.value.(items := s.dq.value.items + xs)))
    decreases |xs|
  {
    if xs == [] {
      assert s.zero.items + xs == s.zero.items;
      assert s.dq.Some? ==> s.dq.value.items + xs == s.dq.value.items;
    } else {
      PostAllAppends(Post(s, xs[0]), xs[1..]);
      assert [xs[0]] + xs[1..] == xs;
      assert (s.zero.items + [xs[0]]) + xs[1..] == s.zero.items + xs;
      assert s.dq.Some? ==> (s.dq.value.items + [xs[0]]) + xs[1..] == s.dq.value.items + xs;
    }
  }

  /** Posting items and then flushing hands over what was queued followed by the items posted, in order,
    * if there are no nulls and nobody owns the data queue. */
  lemma PostedThenFlushed<R>(s: Session<R, Ptr>, xs: seq<Ptr>)
    requires Null !in s.zero.items && Null !in xs
    requires s.dq.Some? ==> Null !in s.dq.value.items && s.dq.value.owner < 0
    ensures FlushedItems(PostAll(s, xs)) == s.zero.items + (if s.dq.Some? then s.dq.value.items else []) + xs
  {
    PostAllAppends(s, xs);
    FlushTakesAll(PostAll(s, xs));
    assert s.zero.items + [] == s.zero.items;
  }

  // ---- replacing the routines ----

  /** The list set is the list read after the worker's next look, and then there is an empty data queue
    * exactly if the list is not empty; the early queue and everything else is left alone. */
  lemma SetThenRead<R, T>(s: Session<R, T>, list: seq<R>)
    requires Consistent(s)
    ensures var s' := SetRoutines(s, list);
            s'.zero == s.zero && s'.dq == s.dq && H.Current(s'.routines) == H.Current(s.routines)
    ensures var s' := Reload(SetRoutines(s, list));
            && H.Current(s'.routines) == list && !s'.routines.reload && s'.zero == s.zero
            && s'.dq == (if list != [] then Some(F.Empty()) else None)
    ensures !s.routines.reload ==> Reload(s) == s
  {
  }

  /** Setting the routines again before the next look replaces the pending list. */
  lemma LastSetIsRead<R, T>(s: Session<R, T>, earlier: seq<R>, list: seq<R>)
    requires Consistent(s)
    ensures H.Current(Reload(SetRoutines(SetRoutines(s, earlier), list)).routines) == list
  {
    SetThenRead(SetRoutines(s, earlier), list);
  }

  /** The first visit after the routines were set runs them: whatever the visit begins with, the list in
    * force from its look at the routines on is the one set. */
  lemma VisitRunsWhatWasSet<R>(s: Session<R, Ptr>, list: seq<R>, paused: bool, flushed: bool)
    requires Consistent(s)
    ensures var s1 := SetRoutines(s, list);
            var begun := Adopt(if paused then Unoccupied(s1) else s1);
            && Consistent(begun)
            && H.Current(Prepare(begun, flushed).routines) == list
            && Prepare(begun, flushed).dq == (if list != [] then Some(F.Empty()) else None)
  {
    var s1 := SetRoutines(s, list);
    var begun := Adopt(if paused then Unoccupied(s1) else s1);
    assert begun.routines == s1.routines;
    assert (if flushed then Flush(begun) else begun).routines == s1.routines;
  }
}
