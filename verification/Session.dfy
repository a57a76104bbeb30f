/** A composing session as an object: posting, flushing, swapping routines and processing an item. */
module Sessions {
  import opened Sequences
  import opened Collectors
  import opened Composition
  import opened ThreadpoolQueues
  import opened HybridQueues
  import F = OwnedFifos
  import H = HotSwap
  import S = SessionSpec

  /** Whether a flush or a cancellation is requested, whether the session is paused, and how its
    * routines are run. */
  datatype Control = Control(flushed: bool, cancelled: bool, paused: bool, mode: Mode)

  /** A flush takes the request back, a cancellation stays. */
  function ControlAfter(c: Control, ending: Ending): (c': Control) {
    match ending
    case WasCancelled => c.(flushed := false, cancelled := true)
    case WasFlushed => c.(flushed := false)
    case Finished => c
  }

  /** The summary, if there is one, was called with `arg`, and returned `y`. */
  predicate SummaryGets(arg: Ptr, w0: World, y: Option<Ptr>, w: World, summary: Option<Routine>) {
    match summary
    case None => y == None && w == w0
    case Some(f) => y == Some(f.run(arg, w0).0) && w == f.run(arg, w0).1
  }

  class ComposingSession {
    const queueZero: ThreadpoolQueue<Ptr>
    var dataQueues: seq<HybridQueue<Ptr>>
    const routines: H.HotSlots<seq<ExecUnit>>
    const summary: H.HotSlots<Option<Routine>>
    const gc: Collector
    const autodelete: bool
    const callMode: CallMode
    var runprioML: Mode
    var flushed: bool          // a flush has been requested
    var abortByCaller: bool
    var paused: bool
    ghost var Repr: set<object>

    ghost predicate Valid()
      reads this, Repr
      ensures Valid() ==> this in Repr
    {
      && {this, queueZero, routines, summary} <= Repr && gc !in Repr
      && queueZero.Valid() && routines.Valid() && summary.Valid()
      && |dataQueues| <= 1
      && (|dataQueues| == 1 ==>
            && dataQueues[0] in Repr && dataQueues[0].Repr <= Repr
            && {this, queueZero, routines, summary} !! dataQueues[0].Repr
            && dataQueues[0].Valid())
      && S.Consistent(View())
    }

    ghost function Queues(): (reading: set<object>)
      reads this
    {
      if |dataQueues| == 1 then {dataQueues[0], dataQueues[0].regQ} else {}
    }

    ghost function View(): (s: S.Session<ExecUnit, Ptr>)
      reads this, queueZero, routines, Queues()
    {
      S.Session(queueZero.View(), if |dataQueues| == 1 then Some(dataQueues[0].View()) else None, routines.View())
    }

    ghost function Flags(): (f: Control)
      reads this
    {
      Control(flushed, abortByCaller, paused, runprioML)
    }

    constructor (blkmode: CallMode, autodel: bool, collector: Collector)
      ensures Valid() && fresh(Repr)
      ensures View() == S.Init()
      ensures gc == collector && autodelete == autodel && callMode == blkmode
      ensures Flags() == Control(false, false, false, LambdaOnly)
      ensures H.Current(routines.View()) == [] && H.Current(summary.View()) == None
    {
      queueZero := new ThreadpoolQueue<Ptr>();
      dataQueues := [];
      routines := new H.HotSlots<seq<ExecUnit>>([]);
      summary := new H.HotSlots<Option<Routine>>(None);
      gc := collector;
      autodelete, callMode := autodel, blkmode;
      runprioML := LambdaOnly;
      flushed, abortByCaller, paused := false, false, false;
      new;
      Repr := {this, queueZero, routines, summary};
    }

    method PostData(data: Ptr) returns (res: bool)
      requires Valid()
      modifies Repr
      ensures Valid() && fresh(Repr - old(Repr)) && gc.userData == old(gc.userData)
      ensures View() == if old(flushed) then old(View()) else S.Post(old(View()), data)
      ensures res <==> !old(flushed) && |old(dataQueues)| > 0
    {
      res := false;
      if flushed {
        return;
      }
      if |dataQueues| == 0 {
        var stored := queueZero.CastObject(data, 0);
        flushed := false;
        return;
      }
      res := dataQueues[0].CastObject(data, 0);
      Repr := Repr + dataQueues[0].Repr;
    }

    /** A vector is accepted by a data queue, but no item of it is stored anywhere. */
    method PostDataAsVector(data: seq<Ptr>) returns (res: bool)
      requires Valid()
      modifies Repr
      ensures Valid() && Repr == old(Repr) && gc.userData == old(gc.userData)
      ensures View() == if old(flushed) then old(View()) else S.PostVector(old(View()), data)
      ensures View() == old(View())
      ensures res <==> !old(flushed) && data != [] && |old(dataQueues)| > 0
      ensures flushed == old(flushed)
    {
      res := false;
      if flushed {
        return;
      }
      if |data| == 0 {
        flushed := false;
        return;
      }
      if |dataQueues| == 0 {
        var stored := queueZero.CastVector(data);
        return;
      }
      res := dataQueues[0].CastVector(data, 0);
    }

    method SetRoutines(ps: seq<ExecUnit>) returns (res: bool)
      requires Valid()
      modifies routines
      ensures Valid() && res
      ensures View() == S.SetRoutines(old(View()), ps)
      ensures routines.slots[routines.indexW] == ps && routines.reload
    {
      routines.Store(ps);
      res := true;
    }

    /** The data queue is replaced by an empty one if the list being read is not empty, and by none if
      * it is. */
    method ReconfigureDataqueues()
      requires {this, queueZero, routines, summary} <= Repr && gc !in Repr
      requires queueZero.Valid() && routines.Valid() && summary.Valid() && queueZero.occupant == -1
      modifies this`dataQueues, this`Repr
      ensures Valid() && fresh(Repr - old(Repr))
      ensures View() == S.Session(queueZero.View(), if H.Current(routines.View()) != [] then Some(F.Empty()) else None,
                                  routines.View())
    {
      dataQueues := [];
      if |routines.slots[routines.indexR]| > 0 {
        var q := new HybridQueue<Ptr>(callMode);
        dataQueues := [q];
        Repr := Repr + q.Repr;
      }
    }

    /** The worker's look at the routine lists, with the rebuild that an effective switch causes. */
    method Reload() returns (index: int, switched: bool)
      requires Valid()
      modifies this`dataQueues, this`Repr, routines
      ensures Valid() && fresh(Repr - old(Repr))
      ensures View() == S.Reload(old(View()))
      ensures index == View().routines.r && switched == old(View()).routines.reload
    {
      index, switched := routines.SwitchOver();
      if switched {
        ReconfigureDataqueues();
      }
    }

    method AdoptDataFromZeroQueue()
      requires Valid()
      modifies queueZero
      ensures Valid() && View() == S.Adopt(old(View()))
    {
      if |queueZero.itsQ| > 0 && |dataQueues| > 0 {
        queueZero.Reset();
      }
    }

    /** With autodelete a non-null object goes to the collector. */
    method HandOver(result: Ptr)
      modifies gc`userData
      ensures gc.userData == old(gc.userData) + (if autodelete then One(result) else [])
    {
      if autodelete && result != Null {
        gc.CastData(result);
      }
    }

    /** One pull of a drain: `taken` is what it hands over, and with a null or nothing the drain ends. */
    method TakeEarly() returns (more: bool, ghost taken: seq<Ptr>)
      requires queueZero.Valid()
      modifies queueZero, gc`userData
      ensures queueZero.Valid() && (queueZero.View(), taken, more) == S.DrainStep(old(queueZero.View()))
      ensures gc.userData == old(gc.userData) + (if autodelete then taken else [])
    {
      var t := queueZero.Pull();
      more, taken := t.Some? && t.value != Null, [];
      if more {
        taken := [t.value];
        HandOver(t.value);
      }
    }

    /** Pulls until a null or nothing comes. */
    method DrainZero()
      requires queueZero.Valid() && queueZero.occupant == -1
      modifies queueZero, gc`userData
      ensures queueZero.Valid()
      ensures queueZero.View() == F.Fifo(S.BehindNull(old(queueZero.itsQ)), -1)
      ensures gc.userData == old(gc.userData) + (if autodelete then S.UpToNull(old(queueZero.itsQ)) else [])
    {
      var more := true;
      ghost var done, before := [], queueZero.View();
      while more
        invariant queueZero.Valid() && queueZero.occupant == -1
        invariant S.Drains(before, queueZero.View(), done, more)
        invariant gc.userData == old(gc.userData) + (if autodelete then done else [])
        decreases more, |queueZero.View().items|
      {
        S.DrainStepDrains(before, queueZero.View(), done);
        ghost var taken;
        more, taken := TakeEarly();
        done := done + taken;
      }
    }

    /** The same for the data queue. */
    method TakeOne(q: HybridQueue<Ptr>) returns (more: bool, ghost taken: seq<Ptr>)
      requires q.Valid() && this !in q.Repr && gc !in q.Repr
      modifies q.Repr, gc`userData
      ensures q.Valid() && q.Repr == old(q.Repr)
      ensures (q.View(), taken, more) == S.DrainStep(old(q.View()))
      ensures gc.userData == old(gc.userData) + (if autodelete then taken else [])
    {
      var t := q.Pull();
      more, taken := t.Some? && t.value != Null, [];
      if more {
        taken := [t.value];
        HandOver(t.value);
      }
    }

    /** Pulls until a null or nothing comes, which is at once if somebody owns the queue, and gives the
      * queue back. */
    method DrainData(q: HybridQueue<Ptr>)
      requires q.Valid() && this !in q.Repr && gc !in q.Repr
      modifies q.Repr, gc`userData
      ensures q.Valid() && q.Repr == old(q.Repr)
      ensures q.View() == F.Fifo(if old(q.occupant) < 0 then S.BehindNull(old(q.Items())) else old(q.Items()), -1)
      ensures gc.userData == old(gc.userData)
                + (if autodelete && old(q.occupant) < 0 then S.UpToNull(old(q.Items())) else [])
    {
      var more := true;
      ghost var done, before := [], q.View();
      while more
        invariant q.Valid() && q.Repr == old(q.Repr)
        invariant S.Drains(before, q.View(), done, more)
        invariant gc.userData == old(gc.userData) + (if autodelete then done else [])
        decreases more, |q.View().items|
      {
        S.DrainStepDrains(before, q.View(), done);
        ghost var taken;
        more, taken := TakeOne(q);
        done := done + taken;
      }
      q.Unoccupy();
    }

    /** The flush itself: the early queue is drained, then the data queue if nobody owns it; it is in any
      * case owned by nobody afterwards. With autodelete the items go to the collector. */
    method FlushLocked()
      requires Valid()
      modifies Repr, gc`userData
      ensures Valid() && Repr == old(Repr)
      ensures View() == S.Flush(old(View())) && |dataQueues| == |old(dataQueues)|
      ensures |dataQueues| == 1 ==> dataQueues[0].occupant == -1
      ensures gc.userData == old(gc.userData) + (if autodelete then S.FlushedItems(old(View())) else [])
      ensures Flags() == old(Flags()).(flushed := false)
      ensures summary.Valid() && summary.View() == old(summary.View())
    {
      ghost var g, v := gc.userData, View();
      DrainZero();
      if |dataQueues| == 1 {
        DrainData(dataQueues[0]);
      }
      S.FlushHands(g, v, autodelete);
      flushed := false;
    }

    method Flush()
      requires Valid()
      modifies Repr, gc`userData
      ensures Valid() && Repr == old(Repr)
      ensures View() == S.Flush(old(View())) && |dataQueues| == |old(dataQueues)|
      ensures |dataQueues| == 1 ==> dataQueues[0].occupant == -1
      ensures gc.userData == old(gc.userData) + (if autodelete then S.FlushedItems(old(View())) else [])
      ensures Flags() == old(Flags()).(flushed := false)
      ensures summary.Valid() && summary.View() == old(summary.View())
    {
      flushed := true;
      FlushLocked();
    }

    /** A flush, after which the session is cancelled. */
    method FlushAndCancel()
      requires Valid()
      modifies Repr, gc`userData
      ensures Valid() && Repr == old(Repr)
      ensures View() == S.Flush(old(View())) && |dataQueues| == |old(dataQueues)|
      ensures |dataQueues| == 1 ==> dataQueues[0].occupant == -1
      ensures gc.userData == old(gc.userData) + (if autodelete then S.FlushedItems(old(View())) else [])
      ensures Flags() == ControlAfter(old(Flags()), WasCancelled)
      ensures summary.Valid() && summary.View() == old(summary.View())
    {
      Flush();
      abortByCaller := true;
    }

    method Unoccupy()
      requires Valid()
      modifies Repr - {this}
      ensures Valid() && View() == S.Unoccupied(old(View()))
      ensures summary.Valid() && summary.View() == old(summary.View())
    {
      if |dataQueues| == 1 {
        dataQueues[0].Unoccupy();
      }
    }

    /** The call of the summary in force, if there is one. */
    method CallSummary(result: Ptr, w0: World) returns (y: Option<Ptr>, w: World)
      requires summary.Valid()
      modifies summary
      ensures summary.Valid() && summary.View() == H.Step(old(summary.View()), H.Switch)
      ensures (y, w) == Summed(result, w0, Finished, H.Current(summary.View()), autodelete)
      ensures SummaryGets(result, w0, y, w, H.Current(summary.View()))
    {
      y, w := None, w0;
      var indSumR, switched := summary.SwitchOver();
      if summary.slots[indSumR].Some? {
        var r := Call(summary.slots[indSumR].value, result, w0);
        y, w := Some(r.0), r.1;
      }
    }

    /** The end of an item that was not cut short: the summary, if one is set, gets the result, and
      * what is left of both goes to the collector. */
    method Summarize(result: Ptr, w0: World) returns (y: Option<Ptr>, w: World)
      requires Valid()
      modifies summary, gc`userData
      ensures Valid() && View() == old(View())
      ensures summary.View() == H.Step(old(summary.View()), H.Switch)
      ensures (y, w) == Summed(result, w0, Finished, H.Current(summary.View()), autodelete)
      ensures SummaryGets(result, w0, y, w, H.Current(summary.View()))
      ensures gc.userData == old(gc.userData) + HandedAtEnd(result, Finished, y, autodelete).0
      ensures !autodelete ==> gc.userData == old(gc.userData)
    {
      var r0 := result;
      y, w := CallSummary(r0, w0);
      if y.Some? && y.value != r0 {
        HandOver(r0);
        HandOver(y.value);
      } else {
        HandOver(r0);
      }
    }

    /** Processing one pulled item. `cancelSeen[i]`, `cancelEnd` and `flushEnd` are what the reads of
      * the control flags find after unit `i` and after the loop. */
    method ProcessItem(x: Ptr, w0: World, cancelSeen: seq<bool>, cancelEnd: bool, flushEnd: bool)
      returns (w: World, ending: Ending, y: Option<Ptr>)
      requires Valid()
      requires |cancelSeen| == |H.Current(routines.View())|
      modifies Repr, gc`userData
      ensures Valid() && Repr == old(Repr)
      ensures ending == if cancelEnd || exists i :: 0 <= i < |cancelSeen| && cancelSeen[i] then WasCancelled
                        else if flushEnd then WasFlushed
                        else Finished
      ensures View() == (var free := S.Unoccupied(old(View())); if ending.Finished? then free else S.Flush(free))
      ensures Flags() == ControlAfter(old(Flags()), ending)
      ensures var v := old(summary.View());
              summary.View() == if ending.WasCancelled? then v else H.Step(v, H.Switch)
      ensures var units := H.Current(old(routines.View()))[..UnitsRun(cancelSeen)];
              var s := AfterUnits(x, w0, units, old(runprioML), autodelete);
              var sum := H.Current(H.Step(old(summary.View()), H.Switch));
              && (y, w) == Summed(s.result, s.w, ending, sum, autodelete)
              && gc.userData == old(gc.userData)
                   + s.handed
                   + HandedAtEnd(s.result, ending, y, autodelete).0
                   + (if autodelete && !ending.Finished? then S.FlushedItems(S.Unoccupied(old(View()))) else [])
                   + HandedAtEnd(s.result, ending, y, autodelete).1
      ensures !autodelete ==> gc.userData == old(gc.userData)
      ensures ending.WasCancelled? ==> abortByCaller && y == None
      ensures !ending.Finished? ==> !flushed
    {
      Unoccupy();
      var units := routines.slots[routines.indexR];
      assert units == H.Current(old(routines.View()));
      var result, cancelled;
      result, w, cancelled := RunRoutines(units, runprioML, x, w0, autodelete, cancelSeen, gc);
      ending := if cancelled || cancelEnd then WasCancelled else if flushEnd then WasFlushed else Finished;
      y, w := EndItem(result, w, ending);
    }

    /** What follows the routines: cancelling, flushing or neither, and then the summary unless the
      * session was cancelled. */
    method EndItem(result0: Ptr, w0: World, ending: Ending) returns (y: Option<Ptr>, w: World)
      requires Valid()
      modifies Repr, gc`userData
      ensures Valid() && Repr == old(Repr)
      ensures View() == if ending.Finished? then old(View()) else S.Flush(old(View()))
      ensures Flags() == ControlAfter(old(Flags()), ending)
      ensures var v := old(summary.View());
              summary.View() == if ending.WasCancelled? then v else H.Step(v, H.Switch)
      ensures var sum := H.Current(H.Step(old(summary.View()), H.Switch));
              (y, w) == Summed(result0, w0, ending, sum, autodelete)
      ensures if ending.WasCancelled? then y == None && w == w0
              else SummaryGets(if ending.WasFlushed? && autodelete then Null else result0, w0, y, w,
                               H.Current(H.Step(old(summary.View()), H.Switch)))
      ensures !autodelete ==> gc.userData == old(gc.userData)
      ensures ending.WasCancelled? ==> abortByCaller
      ensures !ending.Finished? ==> !flushed
      ensures gc.userData == old(gc.userData)
                   + HandedAtEnd(result0, ending, y, autodelete).0
                   + (if autodelete && !ending.Finished? then S.FlushedItems(old(View())) else [])
                   + HandedAtEnd(result0, ending, y, autodelete).1
    {
      ghost var g, queued := gc.userData, S.FlushedItems(View());
      var result := result0;
      if ending.WasCancelled? {
        HandOverAndFlush(result, ending);
        y, w := None, w0;
      } else if ending.WasFlushed? {
        HandOverAndFlush(result, ending);
        if autodelete {
          result := Null;
        }
        y, w := Summarize(result, w0);
      } else {
        y, w := Summarize(result, w0);
      }
      EndHands(g, result0, ending, y, autodelete, queued);
    }

    /** Whatever the routines made of the item goes to the collector, then everything queued. */
    method HandOverAndFlush(result: Ptr, ending: Ending)
      requires Valid() && !ending.Finished?
      modifies Repr, gc`userData
      ensures Valid() && Repr == old(Repr)
      ensures View() == S.Flush(old(View()))
      ensures gc.userData == old(gc.userData)
                + (if autodelete then One(result) else [])
                + (if autodelete then S.FlushedItems(old(View())) else [])
      ensures Flags() == ControlAfter(old(Flags()), ending)
      ensures summary.Valid() && summary.View() == old(summary.View())
    {
      HandOver(result);
      if ending.WasCancelled? {
        FlushAndCancel();
      } else {
        FlushLocked();
      }
    }

    /** Only the worker, whose id is zero, ever owns the data queue. */
    ghost predicate OwnedByWorker()
      reads this, Queues()
    {
      |dataQueues| == 1 ==> dataQueues[0].occupant <= 0
    }

    /** A pull by the worker. */
    method PullItem() returns (item: Option<Ptr>)
      requires Valid() && OwnedByWorker() && |dataQueues| == 1
      modifies Repr - {this}
      ensures Valid() && OwnedByWorker()
      ensures summary.View() == old(summary.View())
      ensures var items := old(View()).dq.value.items;
              if items == [] then
                item == None && View() == S.Unoccupied(old(View()))
              else
                && item == Some(items[0])
                && S.Unoccupied(View()) == old(View()).(dq := Some(F.Fifo(items[1..], -1)))
    {
      var q := dataQueues[0];
      var itemIndex, qstat;
      item, itemIndex, qstat := q.PullAndOccupyWithId(0, NO_STATUS);
    }

    /** What is applied to the next item. */
    ghost function InForce(): (p: Program)
      requires routines.Valid() && summary.Valid()
      reads this, routines, summary
    {
      Program(H.Current(routines.View()), runprioML, H.Current(H.Step(summary.View(), H.Switch)), autodelete)
    }

    /** Processing an item while no control flag is set. */
    method ProcessUndisturbed(x: Ptr, w0: World) returns (w: World, ghost handed: seq<Ptr>)
      requires Valid()
      modifies Repr, gc`userData
      ensures Valid() && Repr == old(Repr)
      ensures Flags() == old(Flags())
      ensures View() == S.Unoccupied(old(View())) && InForce() == old(InForce())
      ensures (handed, w) == ProcessOne(x, w0, old(InForce())) && gc.userData == old(gc.userData) + handed
    {
      var units := routines.slots[routines.indexR];
      var unseen := seq(|units|, _ => false);
      NothingSeen(unseen);
      assert units[..|unseen|] == units;
      ghost var s := AfterUnits(x, w0, units, runprioML, autodelete);
      var ending, y;
      w, ending, y := ProcessItem(x, w0, unseen, false, false);
      handed := s.handed + HandedAtEnd(s.result, Finished, y, autodelete).0;
      assert ending == Finished && HandedAtEnd(s.result, Finished, y, autodelete).1 == [];
      Regroup(old(gc.userData), s.handed, HandedAtEnd(s.result, Finished, y, autodelete).0);
    }

    /** The oldest item, if there is one, is pulled and processed. */
    method ServeNext(w0: World) returns (w: World, more: bool, ghost handed: seq<Ptr>)
      requires Valid() && OwnedByWorker() && |dataQueues| == 1
      modifies Repr, gc`userData
      ensures Valid() && fresh(Repr - old(Repr)) && OwnedByWorker()
      ensures Flags() == old(Flags())
      ensures InForce() == old(InForce()) && gc.userData == old(gc.userData) + handed
      ensures more <==> old(View()).dq.value.items != []
      ensures (handed, w) == if more then ProcessOne(old(View()).dq.value.items[0], w0, old(InForce())) else ([], w0)
      ensures View() == old(View()).(dq := Some(F.Fifo(
                if more then old(View()).dq.value.items[1..] else [], -1)))
    {
      w, more, handed := w0, false, [];
      var item := PullItem();
      if item.Some? {
        w, handed := ProcessUndisturbed(item.value, w0);
        more := true;
      }
    }

    /** What precedes every pull of the worker's loop. */
    method Prepare()
      requires Valid() && OwnedByWorker()
      modifies Repr, gc`userData
      ensures Valid() && fresh(Repr - old(Repr)) && OwnedByWorker()
      ensures Flags() == old(Flags()).(flushed := false)
      ensures View() == S.Prepare(old(View()), old(flushed))
      ensures gc.userData == old(gc.userData)
                + (if old(flushed) && autodelete then S.FlushedItems(old(View())) else [])
      ensures summary.Valid() && summary.View() == old(summary.View())
    {
      if flushed {
        FlushLocked();
      }
      var index, switched := Reload();
    }

    /** A worker's visit to the session when nobody else touches it meanwhile. A cancelled session is
      * flushed. Otherwise, after the adoption of the early queue, a requested flush and a reload of
      * the routines, every item of the data queue is processed in order, and the queue ends empty
      * and free. */
    method Select(w0: World) returns (w: World)
      requires Valid() && OwnedByWorker()
      modifies Repr, gc`userData
      ensures Valid() && fresh(Repr - old(Repr)) && OwnedByWorker()
      ensures Flags() == old(Flags()).(flushed := false, paused := false)
      ensures var v0 := S.Adopt(if old(paused) then S.Unoccupied(old(View())) else old(View()));
              if old(abortByCaller) then
                && w == w0 && View() == S.Flush(v0)
                && gc.userData == old(gc.userData) + (if autodelete then S.FlushedItems(v0) else [])
              else
                var v := S.Prepare(v0, old(flushed));
                var g := old(gc.userData) + (if old(flushed) && autodelete then S.FlushedItems(v0) else []);
                var items := if v.dq.Some? then v.dq.value.items else [];
                var (handed, w1) := ProcessAll(items, w0, old(InForce()).(units := H.Current(v.routines)));
                && w == w1 && gc.userData == g + handed
                && View() == (if v.dq.Some? then v.(dq := Some(F.Fifo([], -1))) else v)
    {
      w := w0;
      Enter();
      if abortByCaller {
        FlushAndCancel();
        return;
      }
      w := Serve(w0);
    }

    /** The beginning of a visit. */
    method Enter()
      requires Valid() && OwnedByWorker()
      modifies Repr, gc`userData
      ensures Valid() && Repr == old(Repr) && OwnedByWorker()
      ensures View() == S.Adopt(if old(paused) then S.Unoccupied(old(View())) else old(View()))
      ensures Flags() == old(Flags()).(paused := false)
      ensures summary.Valid() && summary.View() == old(summary.View()) && gc.userData == old(gc.userData)
    {
      if paused {
        paused := false;
        Unoccupy();
      }
      AdoptDataFromZeroQueue();
    }

    /** The worker's loop. */
    method Serve(w0: World) returns (w: World)
      requires Valid() && OwnedByWorker() && !abortByCaller
      modifies Repr, gc`userData
      ensures Valid() && fresh(Repr - old(Repr)) && OwnedByWorker()
      ensures Flags() == old(Flags()).(flushed := false)
      ensures var v0 := old(View());
              var v := S.Prepare(v0, old(flushed));
              var g := old(gc.userData) + (if old(flushed) && autodelete then S.FlushedItems(v0) else []);
              var items := if v.dq.Some? then v.dq.value.items else [];
              var (handed, w1) := ProcessAll(items, w0, old(InForce()).(units := H.Current(v.routines)));
              && w == w1 && gc.userData == g + handed
              && View() == (if v.dq.Some? then v.(dq := Some(F.Fifo([], -1))) else v)
    {
      w := w0;
      Prepare();
      if |dataQueues| > 0 {
        w := ServeQueue(w0);
      }
    }

    /** The loop from its first pull on. */
    method ServeQueue(w0: World) returns (w: World)
      requires Valid() && OwnedByWorker() && !abortByCaller && !flushed && !routines.reload && |dataQueues| == 1
      modifies Repr, gc`userData
      ensures Valid() && fresh(Repr - old(Repr)) && OwnedByWorker()
      ensures Flags() == old(Flags())
      ensures View() == old(View()).(dq := Some(F.Fifo([], -1)))
      ensures var (handed, w1) := ProcessAll(old(View()).dq.value.items, w0, old(InForce()));
              w == w1 && gc.userData == old(gc.userData) + handed
    {
      ghost var v, p := View(), InForce();
      ghost var items := v.dq.value.items;
      ghost var rest, done, g := items, [], gc.userData;
      var more := true;
      w := w0;
      TallyStart(items, w0, p);
      while more
        invariant Valid() && fresh(Repr - old(Repr)) && Serving(v, p, rest)
        invariant Flags() == old(Flags()) && gc.userData == g + done
        invariant Tally(items, w0, p, done, rest, w)
        invariant !more ==> rest == [] && dataQueues[0].occupant == -1
        decreases more, |rest|
      {
        w, more, rest, done := TalliedRound(w, v, p, items, w0, done, rest, g);
      }
      TallyEnd(items, w0, p, done, w);
    }

    /** `rest` is still queued, and otherwise the session is as it was in `v`. */
    ghost predicate Serving(v: S.Session<ExecUnit, Ptr>, p: Program, rest: seq<Ptr>)
      requires routines.Valid() && summary.Valid()
      reads this, queueZero, routines, summary, Queues()
    {
      && OwnedByWorker() && |dataQueues| == 1 && InForce() == p
      && View() == v.(dq := Some(F.Fifo(rest, dataQueues[0].occupant)))
    }

    /** A round of the loop, with the tally of what has been done. */
    method TalliedRound(w0: World, ghost v: S.Session<ExecUnit, Ptr>, ghost p: Program, ghost items: seq<Ptr>,
                        ghost start: World, ghost done0: seq<Ptr>, ghost rest0: seq<Ptr>, ghost g: seq<Ptr>)
      returns (w: World, more: bool, ghost rest: seq<Ptr>, ghost done: seq<Ptr>)
      requires Valid() && Serving(v, p, rest0) && !abortByCaller && !flushed && !routines.reload
      requires Tally(items, start, p, done0, rest0, w0) && gc.userData == g + done0
      modifies Repr, gc`userData
      ensures Valid() && fresh(Repr - old(Repr)) && Serving(v, p, rest) && Flags() == old(Flags())
      ensures Tally(items, start, p, done, rest, w) && gc.userData == g + done
      ensures if more then |rest| < |rest0| else rest == [] && dataQueues[0].occupant == -1
    {
      ghost var handed;
      w, more, handed := SteadyRound(w0);
      rest, done := rest0, done0;
      if more {
        TallyStep(items, start, p, done, rest, w0);
        Regroup(g, done, handed);
        rest, done := rest[1..], done + handed;
      }
    }

    /** A pull with what follows it up to the next pull, while no flag is set. */
    method SteadyRound(w0: World) returns (w: World, more: bool, ghost handed: seq<Ptr>)
      requires Valid() && OwnedByWorker() && !abortByCaller && !flushed && !routines.reload && |dataQueues| == 1
      modifies Repr, gc`userData
      ensures Valid() && fresh(Repr - old(Repr)) && OwnedByWorker()
      ensures Flags() == old(Flags()) && InForce() == old(InForce())
      ensures gc.userData == old(gc.userData) + handed
      ensures more <==> old(View()).dq.value.items != []
      ensures (handed, w) == if more then ProcessOne(old(View()).dq.value.items[0], w0, old(InForce())) else ([], w0)
      ensures View() == old(View()).(dq := Some(F.Fifo(
                if more then old(View()).dq.value.items[1..] else [], -1)))
    {
      w, more, handed := ServeNext(w0);
      if more {
        Prepare();
      }
    }
  }

  lemma Regroup<T>(a: seq<T>, b: seq<T>, c: seq<T>)
    ensures a + b + c == a + (b + c) == a + b + c + [] + []
  {
  }

  lemma NothingSeen(cancelSeen: seq<bool>)
    requires forall i | 0 <= i < |cancelSeen| :: !cancelSeen[i]
    ensures UnitsRun(cancelSeen) == |cancelSeen|
  {
    UnitsRunIs(cancelSeen, |cancelSeen|);
  }
}