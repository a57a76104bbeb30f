/** What becomes of every item posted to a session while producers, flushes, routine changes and one
  * worker interleave. Each region under the session's lock and each call on the data queue is one
  * step; a flush holds the lock but takes the data queue's items one by one, so the worker's pulls
  * come in between. Posted items are stamped with their position in the order of posting. */
module Ledger {
  import opened Sequences
  import F = OwnedFifos
  import H = HotSwap
  import S = SessionSpec

  datatype Entry = Entry(stamp: nat, obj: nat)

  type Sess = S.Session<nat, Entry>

  /** Where the worker is. */
  datatype Phase =
    | Idle                    // between visits
    | Top                     // about to test for cancellation
    | CheckFlush              // about to test for a requested flush
    | Look                    // about to look at the routines
    | AtQueue                 // about to pull
    | Pulled(e: Entry)        // has pulled, the queue may still be reserved
    | Leaving(e: Entry)       // about to give the queue back
    | Running(e: Entry)       // the routines have been called
    | NeedFlush(next: Phase)  // about to take the lock for a flush
    | Flushing(next: Phase)

  datatype Lock = Free | ByWorker | ByOther

  datatype State = State(
    s: Sess,
    lock: Lock,
    worker: Phase,
    flushFlag: bool,
    cancelFlag: bool,
    paused: bool,
    clearing: nat,            // callers posting an empty vector that have found no flush requested
    posted: seq<nat>,         // the objects accepted, in order
    early: set<nat>,          // stamps of those accepted by the early queue
    given: seq<Entry>,        // passed to the first routine
    processed: seq<Entry>,
    collected: seq<Entry>,    // taken away by a flush
    discarded: seq<Entry>)    // dropped by a rebuild or by the early queue's reset

  datatype Step =
    | Post(obj: nat, sawFlush: bool)
    | PostVector(objs: seq<Entry>)
    | TestEmptyVector
    | ClearForEmptyVector
    | SetRoutines(list: seq<nat>)
    | RequestFlush
    | Cancel
    | SetPaused(on: bool)
    | OtherFlushBegin
    | OtherFlushNext
    | Enter(expired: bool)
    | TestCancel
    | TestFlush
    | LookAtRoutines
    | PullItem
    | PassLock
    | GiveBack
    | Finish(expired: bool)
    | FlushBegin
    | FlushNext

  function Init(): (st: State) {
    State(S.Init(), Free, Idle, false, false, false, 0, [], {}, [], [], [], [])
  }

  function Stored(q: Option<F.Fifo<Entry>>): (items: seq<Entry>) {
    if q.Some? then q.value.items else []
  }

  ghost predicate Enabled(st: State, step: Step) {
    match step
    case Post(_, sawFlush) => sawFlush || st.lock == Free
    case PostVector(objs) => st.lock == Free
    case TestEmptyVector => true
    case ClearForEmptyVector => st.clearing > 0
    case SetRoutines(_) => st.lock == Free && H.Proper(st.s.routines)
    case RequestFlush => true
    case Cancel => true
    case SetPaused(_) => st.lock == Free
    case OtherFlushBegin => st.lock == Free
    case OtherFlushNext => st.lock == ByOther
    case Enter(_) => st.worker == Idle && st.lock == Free
    case TestCancel => st.worker == Top
    case TestFlush => st.worker == CheckFlush
    case LookAtRoutines => st.worker == Look && st.lock == Free && H.Proper(st.s.routines)
    case PullItem => st.worker == AtQueue && st.s.dq.Some?
    case PassLock => st.worker.Pulled? && st.lock == Free
    case GiveBack => st.worker.Leaving?
    case Finish(_) => st.worker.Running?
    case FlushBegin => st.worker.NeedFlush? && st.lock == Free
    case FlushNext => st.worker.Flushing?
  }

  /** A flush empties the early queue as soon as it has the lock. */
  function EmptyEarly(st: State): (st': State) {
    st.(collected := st.collected + st.s.zero.items, s := st.s.(zero := st.s.zero.(items := [])))
  }

  /** A flush takes the next item of the data queue; `ends` is what holds when none comes. */
  function TakeOne(st: State, ends: State): (st': State) {
    if st.s.dq.Some? && F.Pulled(st.s.dq.value, -1).Some? then
      st.(collected := st.collected + [F.Pulled(st.s.dq.value, -1).value],
          s := st.s.(dq := Some(F.AfterPull(st.s.dq.value, -1))))
    else ends.(s := S.Unoccupied(st.s), flushFlag := false)
  }

  /** Accepting an object. The early queue accepts it when there is no data queue, and then a flush
    * request is forgotten. */
  function Accept(st: State, x: nat): (st': State) {
    var k := |st.posted|;
    st.(s := S.Post(st.s, Entry(k, x)), posted := st.posted + [x],
        early := if st.s.dq.None? then st.early + {k} else st.early,
        flushFlag := st.flushFlag && st.s.dq.Some?)
  }

  /** The beginning of a visit: a paused session is freed, the early queue is dropped if there is a
    * data queue. */
  function Begin(st: State, expired: bool): (st': State) {
    var s1 := if st.paused then S.Unoccupied(st.s) else st.s;
    var dropped := if st.s.dq.Some? then st.s.zero.items else [];
    st.(s := S.Adopt(s1), paused := false, discarded := st.discarded + dropped,
        worker := if st.cancelFlag || expired then NeedFlush(Idle) else Top,
        cancelFlag := st.cancelFlag || expired)
  }

  function LookAt(st: State): (st': State)
    requires H.Proper(st.s.routines)
  {
    var s1 := S.Reload(st.s);
    st.(s := s1,
        discarded := st.discarded + (if st.s.routines.reload then Stored(st.s.dq) else []),
        worker := if s1.dq.Some? then AtQueue else Idle)
  }

  function TakeInHand(st: State): (st': State)
    requires st.s.dq.Some?
  {
    var q := st.s.dq.value;
    var item := F.Pulled(q, 0);
    st.(s := st.s.(dq := Some(F.AfterPull(q, 0))),
        worker := if item.Some? then Pulled(item.value) else if q.items == [] then Idle else Top)
  }

  function Call(st: State): (st': State)
    requires st.worker.Leaving?
  {
    st.(s := S.Unoccupied(st.s), worker := Running(st.worker.e), given := st.given + [st.worker.e])
  }

  /** Where the worker goes on after an item. */
  function AfterItem(st: State, expired: bool): (p: Phase) {
    if st.cancelFlag then NeedFlush(Idle)
    else if st.flushFlag then NeedFlush(if expired then NeedFlush(Idle) else Top)
    else if expired then NeedFlush(Idle)
    else Top
  }

  function Complete(st: State, expired: bool): (st': State)
    requires st.worker.Running?
  {
    st.(processed := st.processed + [st.worker.e], worker := AfterItem(st, expired),
        cancelFlag := st.cancelFlag || expired)
  }

  function Apply(st: State, step: Step): (st': State)
    requires Enabled(st, step)
  {
    match step
    case Post(x, sawFlush) => if sawFlush then st else Accept(st, x)
    case PostVector(objs) => st.(s := S.PostVector(st.s, objs))
    case TestEmptyVector => if st.flushFlag then st else st.(clearing := st.clearing + 1)
    case ClearForEmptyVector => st.(flushFlag := false, clearing := st.clearing - 1)
    case SetRoutines(list) => st.(s := S.SetRoutines(st.s, list))
    case RequestFlush => st.(flushFlag := true)
    case Cancel => st.(cancelFlag := true)
    case SetPaused(on) => st.(paused := on)
    case OtherFlushBegin => EmptyEarly(st).(lock := ByOther)
    case OtherFlushNext => TakeOne(st, st.(lock := Free))
    case Enter(expired) => Begin(st, expired)
    case TestCancel => st.(worker := if st.cancelFlag then NeedFlush(Idle) else CheckFlush)
    case TestFlush => st.(worker := if st.flushFlag then NeedFlush(Look) else Look)
    case LookAtRoutines => LookAt(st)
    case PullItem => TakeInHand(st)
    case PassLock => st.(worker := Leaving(st.worker.e))
    case GiveBack => Call(st)
    case Finish(expired) => Complete(st, expired)
    case FlushBegin => EmptyEarly(st).(lock := ByWorker, worker := Flushing(st.worker.next))
    case FlushNext => TakeOne(st, st.(lock := Free, worker := st.worker.next))
  }

  ghost predicate Executes(st: State, steps: seq<Step>)
    decreases steps
  {
    steps == [] || (Enabled(st, steps[0]) && Executes(Apply(st, steps[0]), steps[1..]))
  }

  function Run(st: State, steps: seq<Step>): (st': State)
    requires Executes(st, steps)
    decreases steps
  {
    if steps == [] then st else Run(Apply(st, steps[0]), steps[1..])
  }

  // ---- invariant ----

  /** Everything accepted, with its stamps. */
  function Log(posted: seq<nat>): (entries: seq<Entry>) {
    seq(|posted|, k requires 0 <= k < |posted| => Entry(k, posted[k]))
  }

  /** The item the worker has pulled but not yet passed on. */
  function InHand(p: Phase): (items: seq<Entry>) {
    if p.Pulled? || p.Leaving? then [p.e] else []
  }

  function InRoutines(p: Phase): (items: seq<Entry>) {
    if p.Running? then [p.e] else []
  }

  /** Every place an item can be in. */
  function Places(st: State): (all: multiset<Entry>) {
    multiset(st.s.zero.items) + multiset(Stored(st.s.dq)) + multiset(InHand(st.worker) + InRoutines(st.worker))
    + multiset(st.processed) + multiset(st.collected) + multiset(st.discarded)
  }

  /** Items on their way through the data queue: those given to the routines, the one in hand, those
    * still queued. */
  function Line(st: State): (items: seq<Entry>) {
    st.given + InHand(st.worker) + Stored(st.s.dq)
  }

  ghost predicate InOrder(items: seq<Entry>) {
    forall i, j | 0 <= i < j < |items| :: items[i].stamp < items[j].stamp
  }

  ghost predicate LineInv(st: State) {
    && InOrder(Line(st))
    && (forall i | 0 <= i < |Line(st)| :: Line(st)[i].stamp < |st.posted| && Line(st)[i].stamp !in st.early)
    && (forall k | k in st.early :: k < |st.posted|)
    && st.processed + InRoutines(st.worker) == st.given
  }

  /** Where the worker goes on after a flush. */
  predicate Resumes(p: Phase) {
    p.Idle? || p.Top? || p.Look? || p == NeedFlush(Idle)
  }

  /** Whoever is between the look at the routines and the call of the first one has a data queue. */
  ghost predicate QueueInv(st: State) {
    && (st.worker.AtQueue? || st.worker.Pulled? || st.worker.Leaving? ==> st.s.dq.Some?)
    && (st.worker.NeedFlush? || st.worker.Flushing? ==> Resumes(st.worker.next))
  }

  ghost predicate PlacesInv(st: State) {
    Places(st) == multiset(Log(st.posted))
  }

  ghost predicate Inv(st: State) {
    && S.Consistent(st.s)
    && QueueInv(st)
    && PlacesInv(st)
    && LineInv(st)
  }

  // ---- preservation ----

  lemma DropMiddle(st: State, st': State, before: seq<Entry>, dropped: seq<Entry>, after: seq<Entry>)
    requires LineInv(st) && Line(st) == before + dropped + after
    requires Line(st') == before + after
    requires st'.posted == st.posted && st'.early == st.early
    requires st'.processed + InRoutines(st'.worker) == st'.given
    ensures LineInv(st')
  {
    var l, l' := Line(st), Line(st');
    forall i | 0 <= i < |l'|
      ensures l'[i] == l[if i < |before| then i else i + |dropped|]
    {
    }
  }

  lemma SameLine(st: State, st': State)
    requires LineInv(st) && Line(st') == Line(st)
    requires st'.posted == st.posted && st'.early == st.early
    requires st'.processed + InRoutines(st'.worker) == st'.given
    ensures LineInv(st')
  {
  }

  /** One item moves from the front of the data queue to place `dest`. */
  lemma FrontItem(q: F.Fifo<Entry>, id: int)
    requires F.Pulled(q, id).Some?
    ensures var x := F.Pulled(q, id).value;
            && q.items == [x] + F.AfterPull(q, id).items
            && multiset(q.items) == multiset{x} + multiset(F.AfterPull(q, id).items)
  {
    assert q.items == [q.items[0]] + q.items[1..];
  }

  lemma PostPlaces(st: State, x: nat)
    requires PlacesInv(st)
    ensures PlacesInv(Accept(st, x))
  {
    var e := Entry(|st.posted|, x);
    var st' := Accept(st, x);
    assert Log(st'.posted) == Log(st.posted) + [e];
    assert multiset(Log(st'.posted)) == multiset(Log(st.posted)) + multiset{e};
    if st.s.dq.None? {
      assert multiset(st'.s.zero.items) == multiset(st.s.zero.items) + multiset{e};
    } else {
      assert multiset(Stored(st'.s.dq)) == multiset(Stored(st.s.dq)) + multiset{e};
    }
  }

  lemma PostLine(st: State, x: nat)
    requires LineInv(st)
    ensures LineInv(Accept(st, x))
  {
    var e := Entry(|st.posted|, x);
    var st' := Accept(st, x);
    if st.s.dq.None? {
      assert Line(st') == Line(st);
    } else {
      assert Line(st') == Line(st) + [e];
    }
  }

  /** Items that leave a queue and are recorded as collected keep the places in balance. */
  lemma Collected(st: State, st': State, items: seq<Entry>)
    requires PlacesInv(st) && st'.collected == st.collected + items
    requires multiset(st'.s.zero.items) + multiset(Stored(st'.s.dq)) + multiset(items)
          == multiset(st.s.zero.items) + multiset(Stored(st.s.dq))
    requires InHand(st'.worker) + InRoutines(st'.worker) == InHand(st.worker) + InRoutines(st.worker)
    requires st'.posted == st.posted && st'.processed == st.processed && st'.discarded == st.discarded
    ensures PlacesInv(st')
  {
    assert multiset(st'.collected) == multiset(st.collected) + multiset(items);
  }

  lemma TakeOnePlaces(st: State, ends: State)
    requires PlacesInv(st) && ends.(lock := st.lock, worker := st.worker) == st
    requires InHand(ends.worker) == InHand(st.worker) && InRoutines(ends.worker) == InRoutines(st.worker)
    ensures PlacesInv(TakeOne(st, ends))
  {
    var st' := TakeOne(st, ends);
    if st.s.dq.Some? && F.Pulled(st.s.dq.value, -1).Some? {
      FrontItem(st.s.dq.value, -1);
      Collected(st, st', [F.Pulled(st.s.dq.value, -1).value]);
    } else {
      assert Stored(st'.s.dq) == Stored(st.s.dq);
      Collected(st, st', []);
    }
  }

  lemma TakeOneLine(st: State, ends: State)
    requires LineInv(st) && ends.(lock := st.lock, worker := st.worker) == st
    requires InHand(ends.worker) == InHand(st.worker) && InRoutines(ends.worker) == InRoutines(st.worker)
    ensures LineInv(TakeOne(st, ends))
  {
    var st' := TakeOne(st, ends);
    if st.s.dq.Some? && F.Pulled(st.s.dq.value, -1).Some? {
      FrontLine(st);
      DropMiddle(st, st', st.given + InHand(st.worker), [F.Pulled(st.s.dq.value, -1).value], Stored(st'.s.dq));
    } else {
      assert Stored(st'.s.dq) == Stored(st.s.dq);
      assert Line(st') == Line(st);
      SameLine(st, st');
    }
  }

  /** The line of a state whose data queue delivers an item to a flush. */
  lemma FrontLine(st: State)
    requires st.s.dq.Some? && F.Pulled(st.s.dq.value, -1).Some?
    ensures Line(st) == st.given + InHand(st.worker) + [F.Pulled(st.s.dq.value, -1).value]
                          + F.AfterPull(st.s.dq.value, -1).items
  {
    FrontItem(st.s.dq.value, -1);
  }

  lemma EmptyEarlyQueues(st: State)
    requires PlacesInv(st) && LineInv(st)
    ensures PlacesInv(EmptyEarly(st)) && LineInv(EmptyEarly(st))
  {
    var st' := EmptyEarly(st);
    Collected(st, st', st.s.zero.items);
    SameLine(st, st');
  }

  lemma BeginQueues(st: State, expired: bool)
    requires PlacesInv(st) && LineInv(st) && st.worker == Idle
    ensures PlacesInv(Begin(st, expired)) && LineInv(Begin(st, expired))
  {
    var st' := Begin(st, expired);
    var dropped := if st.s.dq.Some? then st.s.zero.items else [];
    assert st'.s.zero.items == if st.s.dq.Some? then [] else st.s.zero.items;
    assert Stored(st'.s.dq) == Stored(st.s.dq);
    Dropped(st, st', dropped);
    SameLine(st, st');
  }

  /** Items that leave a queue and are recorded as discarded keep the places in balance. */
  lemma Dropped(st: State, st': State, dropped: seq<Entry>)
    requires PlacesInv(st) && st'.discarded == st.discarded + dropped
    requires multiset(st'.s.zero.items) + multiset(Stored(st'.s.dq)) + multiset(dropped)
          == multiset(st.s.zero.items) + multiset(Stored(st.s.dq))
    requires InHand(st'.worker) + InRoutines(st'.worker) == InHand(st.worker) + InRoutines(st.worker)
    requires st'.posted == st.posted && st'.processed == st.processed && st'.collected == st.collected
    ensures PlacesInv(st')
  {
    assert multiset(st'.discarded) == multiset(st.discarded) + multiset(dropped);
  }

  lemma LookPlaces(st: State)
    requires PlacesInv(st) && st.worker == Look && H.Proper(st.s.routines)
    ensures PlacesInv(LookAt(st))
  {
    var st' := LookAt(st);
    assert st'.s.zero == st.s.zero;
    if st.s.routines.reload {
      assert Stored(st'.s.dq) == [];
      Dropped(st, st', Stored(st.s.dq));
    } else {
      Dropped(st, st', []);
    }
  }

  lemma LookLine(st: State)
    requires LineInv(st) && st.worker == Look && H.Proper(st.s.routines)
    ensures LineInv(LookAt(st))
  {
    var st' := LookAt(st);
    if st.s.routines.reload {
      assert Stored(st'.s.dq) == [];
      DropMiddle(st, st', st.given + InHand(st.worker), Stored(st.s.dq), []);
    } else {
      SameLine(st, st');
    }
  }

  lemma PullPlaces(st: State)
    requires PlacesInv(st) && st.worker == AtQueue && st.s.dq.Some?
    ensures PlacesInv(TakeInHand(st))
  {
    var st' := TakeInHand(st);
    if F.Pulled(st.s.dq.value, 0).Some? {
      FrontItem(st.s.dq.value, 0);
      var x := F.Pulled(st.s.dq.value, 0).value;
      assert InHand(st'.worker) + InRoutines(st'.worker) == [x];
      assert InHand(st.worker) + InRoutines(st.worker) == [];
    } else {
      assert Stored(st'.s.dq) == Stored(st.s.dq);
    }
  }

  lemma PullLine(st: State)
    requires LineInv(st) && st.worker == AtQueue && st.s.dq.Some?
    ensures LineInv(TakeInHand(st))
  {
    var st' := TakeInHand(st);
    if F.Pulled(st.s.dq.value, 0).Some? {
      FrontItem(st.s.dq.value, 0);
      assert Line(st') == Line(st);
    } else {
      assert Stored(st'.s.dq) == Stored(st.s.dq);
    }
    SameLine(st, st');
  }

  lemma CallQueues(st: State)
    requires PlacesInv(st) && LineInv(st) && st.worker.Leaving?
    ensures PlacesInv(Call(st)) && LineInv(Call(st))
  {
    var st' := Call(st);
    assert Stored(st'.s.dq) == Stored(st.s.dq);
    assert Line(st') == Line(st);
    assert InHand(st.worker) + InRoutines(st.worker) == InHand(st'.worker) + InRoutines(st'.worker);
    SameLine(st, st');
  }

  lemma CompleteQueues(st: State, expired: bool)
    requires PlacesInv(st) && LineInv(st) && st.worker.Running?
    ensures PlacesInv(Complete(st, expired)) && LineInv(Complete(st, expired))
  {
    var p := AfterItem(st, expired);
    assert InHand(p) == [] && InRoutines(p) == [];
    var st' := st.(processed := st.processed + [st.worker.e], worker := p, cancelFlag := st.cancelFlag || expired);
    CompletePlaces(st, st');
    CompleteLine(st, st');
  }

  lemma CompleteLine(st: State, st': State)
    requires LineInv(st) && st.worker.Running? && InHand(st'.worker) == [] && InRoutines(st'.worker) == []
    requires st' == st.(worker := st'.worker, cancelFlag := st'.cancelFlag,
                        processed := st.processed + [st.worker.e])
    ensures LineInv(st')
  {
    assert Line(st') == Line(st);
    assert st'.processed + [] == st'.processed;
    SameLine(st, st');
  }

  lemma CompletePlaces(st: State, st': State)
    requires PlacesInv(st) && st.worker.Running? && InHand(st'.worker) == [] && InRoutines(st'.worker) == []
    requires st' == st.(worker := st'.worker, cancelFlag := st'.cancelFlag,
                        processed := st.processed + [st.worker.e])
    ensures PlacesInv(st')
  {
    assert multiset(st'.processed) == multiset(st.processed) + multiset{st.worker.e};
    assert InHand(st.worker) + InRoutines(st.worker) == [st.worker.e];
  }

  /** A step that changes neither what the queues store nor where the worker's item is. */
  lemma QuietQueues(st: State, st': State)
    requires PlacesInv(st) && LineInv(st)
    requires st'.s.zero.items == st.s.zero.items && Stored(st'.s.dq) == Stored(st.s.dq)
    requires InHand(st'.worker) == InHand(st.worker) && InRoutines(st'.worker) == InRoutines(st.worker)
    requires st'.posted == st.posted && st'.early == st.early && st'.given == st.given
    requires st'.processed == st.processed && st'.collected == st.collected && st'.discarded == st.discarded
    ensures PlacesInv(st') && LineInv(st')
  {
    SameLine(st, st');
  }

  /** Steps that move no item. */
  predicate MovesNothing(step: Step) {
    step.PostVector? || step.TestEmptyVector? || step.ClearForEmptyVector? || step.SetRoutines?
    || step.RequestFlush? || step.Cancel? || step.SetPaused? || step.TestCancel?
    || step.TestFlush? || step.PassLock?
  }

  lemma QuietSession(st: State, s1: Sess)
    requires PlacesInv(st) && LineInv(st)
    requires s1.zero.items == st.s.zero.items && Stored(s1.dq) == Stored(st.s.dq)
    ensures PlacesInv(st.(s := s1)) && LineInv(st.(s := s1))
  {
    QuietQueues(st, st.(s := s1));
  }

  lemma QuietFlags(st: State, st': State)
    requires PlacesInv(st) && LineInv(st)
    requires st' == st.(worker := st'.worker, clearing := st'.clearing, flushFlag := st'.flushFlag,
                        cancelFlag := st'.cancelFlag, paused := st'.paused)
    requires InHand(st'.worker) == InHand(st.worker) && InRoutines(st'.worker) == InRoutines(st.worker)
    ensures PlacesInv(st') && LineInv(st')
  {
    QuietQueues(st, st');
  }

  lemma FlagsOnly(st: State, step: Step)
    requires Enabled(st, step) && MovesNothing(step) && !step.PostVector? && !step.SetRoutines?
    ensures var st' := Apply(st, step);
            && st' == st.(worker := st'.worker, clearing := st'.clearing, flushFlag := st'.flushFlag,
                          cancelFlag := st'.cancelFlag, paused := st'.paused)
            && InHand(st'.worker) == InHand(st.worker) && InRoutines(st'.worker) == InRoutines(st.worker)
  {
  }

  lemma QuietStep(st: State, step: Step)
    requires PlacesInv(st) && LineInv(st) && Enabled(st, step) && MovesNothing(step)
    ensures PlacesInv(Apply(st, step)) && LineInv(Apply(st, step))
  {
    if step.PostVector? || step.SetRoutines? {
      QuietSession(st, Apply(st, step).s);
    } else {
      FlagsOnly(st, step);
      QuietFlags(st, Apply(st, step));
    }
  }

  /** A flush takes the lock; the worker may move on, with no item in hand. */
  lemma FlushBegins(st: State, lock: Lock, p: Phase)
    requires PlacesInv(st) && LineInv(st)
    requires InHand(p) == InHand(st.worker) && InRoutines(p) == InRoutines(st.worker)
    ensures PlacesInv(EmptyEarly(st).(lock := lock, worker := p)) && LineInv(EmptyEarly(st).(lock := lock, worker := p))
  {
    EmptyEarlyQueues(st);
    QuietQueues(EmptyEarly(st), EmptyEarly(st).(lock := lock, worker := p));
  }

  lemma FlushContinues(st: State, lock: Lock, p: Phase)
    requires PlacesInv(st) && LineInv(st)
    requires InHand(p) == InHand(st.worker) && InRoutines(p) == InRoutines(st.worker)
    ensures PlacesInv(TakeOne(st, st.(lock := lock, worker := p)))
         && LineInv(TakeOne(st, st.(lock := lock, worker := p)))
  {
    TakeOnePlaces(st, st.(lock := lock, worker := p));
    TakeOneLine(st, st.(lock := lock, worker := p));
  }

  lemma FlushStep(st: State, step: Step)
    requires PlacesInv(st) && LineInv(st) && Enabled(st, step) && QueueInv(st)
    requires step.OtherFlushBegin? || step.OtherFlushNext? || step.FlushBegin? || step.FlushNext?
    ensures PlacesInv(Apply(st, step)) && LineInv(Apply(st, step))
  {
    match step
    case OtherFlushBegin => FlushBegins(st, ByOther, st.worker);
    case FlushBegin => FlushBegins(st, ByWorker, Flushing(st.worker.next));
    case OtherFlushNext => FlushContinues(st, Free, st.worker);
    case FlushNext => FlushContinues(st, Free, st.worker.next);
  }

  lemma LookStep(st: State)
    requires PlacesInv(st) && LineInv(st) && Enabled(st, LookAtRoutines)
    ensures PlacesInv(Apply(st, LookAtRoutines)) && LineInv(Apply(st, LookAtRoutines))
  {
    LookPlaces(st);
    LookLine(st);
  }

  lemma PullStep(st: State)
    requires PlacesInv(st) && LineInv(st) && Enabled(st, PullItem)
    ensures PlacesInv(Apply(st, PullItem)) && LineInv(Apply(st, PullItem))
  {
    PullPlaces(st);
    PullLine(st);
  }

  lemma PostStep(st: State, x: nat, sawFlush: bool)
    requires PlacesInv(st) && LineInv(st) && Enabled(st, Post(x, sawFlush))
    ensures PlacesInv(Apply(st, Post(x, sawFlush))) && LineInv(Apply(st, Post(x, sawFlush)))
  {
    PostPlaces(st, x);
    PostLine(st, x);
  }

  lemma StepKeepsQueues(st: State, step: Step)
    requires QueueInv(st) && PlacesInv(st) && LineInv(st) && Enabled(st, step)
    ensures PlacesInv(Apply(st, step)) && LineInv(Apply(st, step))
  {
    if MovesNothing(step) {
      QuietStep(st, step);
    } else {
      match step
      case Post(x, sawFlush) => PostStep(st, x, sawFlush);
      case Enter(expired) => BeginQueues(st, expired);
      case LookAtRoutines => LookStep(st);
      case PullItem => PullStep(st);
      case GiveBack => CallQueues(st);
      case Finish(expired) => CompleteQueues(st, expired);
      case _ => FlushStep(st, step);
    }
  }

  lemma StepKeepsConsistent(st: State, step: Step)
    requires S.Consistent(st.s) && Enabled(st, step)
    ensures S.Consistent(Apply(st, step).s)
  {
    match step
    case OtherFlushNext => TakeOneConsistent(st, Free, st.worker);
    case FlushNext => TakeOneConsistent(st, Free, st.worker.next);
    case PullItem => PullConsistent(st);
    case Post(x, sawFlush) => PostConsistent(st, x);
    case LookAtRoutines => LookConsistent(st);
    case _ => QuietConsistent(st, step);
  }

  lemma PostConsistent(st: State, x: nat)
    requires S.Consistent(st.s)
    ensures S.Consistent(Accept(st, x).s)
  {
  }

  lemma LookConsistent(st: State)
    requires S.Consistent(st.s)
    ensures S.Consistent(LookAt(st).s)
  {
  }

  lemma QuietConsistent(st: State, step: Step)
    requires S.Consistent(st.s) && Enabled(st, step)
    requires !step.OtherFlushNext? && !step.FlushNext? && !step.PullItem? && !step.Post? && !step.LookAtRoutines?
    ensures S.Consistent(Apply(st, step).s)
  {
  }

  lemma TakeOneConsistent(st: State, lock: Lock, p: Phase)
    requires S.Consistent(st.s)
    ensures S.Consistent(TakeOne(st, st.(lock := lock, worker := p)).s)
  {
    var st' := TakeOne(st, st.(lock := lock, worker := p));
    assert st'.s.zero == st.s.zero && st'.s.routines == st.s.routines && st'.s.dq.Some? == st.s.dq.Some?;
  }

  lemma PullConsistent(st: State)
    requires S.Consistent(st.s) && st.s.dq.Some?
    ensures S.Consistent(TakeInHand(st).s)
  {
  }

  lemma StepKeepsQueueInv(st: State, step: Step)
    requires QueueInv(st) && Enabled(st, step)
    ensures QueueInv(Apply(st, step))
  {
  }

  lemma StepKeepsInv(st: State, step: Step)
    requires Inv(st) && Enabled(st, step)
    ensures Inv(Apply(st, step))
  {
    StepKeepsConsistent(st, step);
    StepKeepsQueueInv(st, step);
    StepKeepsQueues(st, step);
  }

  lemma {:induction false} RunKeepsInv(st: State, steps: seq<Step>)
    requires Inv(st) && Executes(st, steps)
    ensures Inv(Run(st, steps))
    decreases steps
  {
    if steps != [] {
      StepKeepsInv(st, steps[0]);
      RunKeepsInv(Apply(st, steps[0]), steps[1..]);
    }
  }

  // ---- main results ----

  lemma {:induction false} LoggedOnce(posted: seq<nat>, k: nat)
    requires k < |posted|
    ensures multiset(Log(posted))[Entry(k, posted[k])] == 1
  {
    var n := |posted| - 1;
    assert Log(posted) == Log(posted[..n]) + [Entry(n, posted[n])];
    if k < n {
      LoggedOnce(posted[..n], k);
    } else {
      assert forall e | e in Log(posted[..n]) :: e.stamp < n;
    }
  }

  lemma InitKeepsInv()
    ensures Inv(Init())
  {
    assert Places(Init()) == multiset{};
    assert Line(Init()) == [];
  }

  /** Every accepted item is in exactly one place, once, and the places hold nothing else. */
  ghost predicate Accounted(st: State) {
    && (forall k | 0 <= k < |st.posted| :: Places(st)[Entry(k, st.posted[k])] == 1)
    && (forall e | e in Places(st) :: e.stamp < |st.posted| && st.posted[e.stamp] == e.obj)
  }

  lemma {:induction false} BalanceAccounts(st: State)
    requires PlacesInv(st)
    ensures Accounted(st)
  {
    forall k | 0 <= k < |st.posted|
      ensures Places(st)[Entry(k, st.posted[k])] == 1
    {
      LoggedOnce(st.posted, k);
    }
    forall e | e in Places(st)
      ensures e.stamp < |st.posted| && st.posted[e.stamp] == e.obj
    {
      assert e in Log(st.posted);
    }
  }

  /** At every moment of every run each accepted item is accounted for: pending in one of the queues,
    * with the worker, processed, collected by a flush, or discarded. */
  lemma {:induction false} EveryItemInOnePlace(steps: seq<Step>)
    requires Executes(Init(), steps)
    ensures Accounted(Run(Init(), steps))
  {
    InitKeepsInv();
    RunKeepsInv(Init(), steps);
    BalanceAccounts(Run(Init(), steps));
  }

  lemma GivenOf(st: State, i: nat)
    requires Inv(st) && i < |st.given|
    ensures Line(st)[i] == st.given[i]
    ensures st.given[i].stamp < |st.posted| && st.posted[st.given[i].stamp] == st.given[i].obj
  {
    assert st.given[i] in st.processed + InRoutines(st.worker);
    assert st.given[i] in Places(st);
    assert st.given[i] in Log(st.posted);
  }

  /** The items given to the first routine were posted, come in the order of posting, no item twice;
    * and those accepted by the early queue are never among them. */
  lemma GivenInOrder(steps: seq<Step>)
    requires Executes(Init(), steps)
    ensures var st := Run(Init(), steps);
            && (forall i, j | 0 <= i < j < |st.given| :: st.given[i].stamp < st.given[j].stamp)
            && (forall i | 0 <= i < |st.given| ::
                  && st.given[i].stamp < |st.posted|
                  && st.posted[st.given[i].stamp] == st.given[i].obj
                  && st.given[i].stamp !in st.early)
            && st.processed + InRoutines(st.worker) == st.given
  {
    InitKeepsInv();
    RunKeepsInv(Init(), steps);
    GivenOrdered(Run(Init(), steps));
  }

  lemma GivenOrdered(st: State)
    requires Inv(st)
    ensures forall i, j | 0 <= i < j < |st.given| :: st.given[i].stamp < st.given[j].stamp
    ensures forall i | 0 <= i < |st.given| ::
              && st.given[i].stamp < |st.posted|
              && st.posted[st.given[i].stamp] == st.given[i].obj
              && st.given[i].stamp !in st.early
  {
    forall i | 0 <= i < |st.given|
      ensures Line(st)[i] == st.given[i]
      ensures st.given[i].stamp < |st.posted| && st.posted[st.given[i].stamp] == st.given[i].obj
    {
      GivenOf(st, i);
    }
  }

  /** An item accepted by the early queue stays there until it is collected or discarded; it is never
    * processed. */
  lemma EarlyItemsNeverServed(steps: seq<Step>, k: nat)
    requires Executes(Init(), steps)
    requires k in Run(Init(), steps).early
    ensures var st := Run(Init(), steps);
            && k < |st.posted|
            && Entry(k, st.posted[k]) in st.s.zero.items + st.collected + st.discarded
            && Entry(k, st.posted[k]) !in st.processed
  {
    InitKeepsInv();
    RunKeepsInv(Init(), steps);
    NotInLine(Run(Init(), steps), k);
  }

  lemma NotInLine(st: State, k: nat)
    requires Inv(st) && k in st.early
    ensures k < |st.posted|
    ensures Entry(k, st.posted[k]) in st.s.zero.items + st.collected + st.discarded
    ensures Entry(k, st.posted[k]) !in st.processed
  {
    var e := Entry(k, st.posted[k]);
    assert e !in Line(st);
    assert e !in st.given && e !in InHand(st.worker) && e !in Stored(st.s.dq);
    assert e !in st.processed + InRoutines(st.worker);
    LoggedOnce(st.posted, k);
    assert e in Places(st);
  }

  /** At every moment of every run there is a data queue exactly when the routine list being read is
    * not empty. */
  lemma QueueFollowsRoutines(steps: seq<Step>)
    requires Executes(Init(), steps)
    ensures S.Consistent(Run(Init(), steps).s)
  {
    InitKeepsInv();
    RunKeepsInv(Init(), steps);
  }

  /** Such losses happen: an item posted before the worker's first visit is gone after the second. */
  lemma EarlyItemLost(routine: nat, x: nat)
    ensures var first := [SetRoutines([routine]), Post(x, false), Enter(false), TestCancel];
            var second := [TestFlush, LookAtRoutines, PullItem, Enter(false)];
            && Executes(Init(), first) && Executes(Run(Init(), first), second)
            && Run(Run(Init(), first), second).discarded == [Entry(0, x)]
            && Run(Run(Init(), first), second).given == []
  {
    var s4 := PostsEarly(routine, x);
    SecondVisitDrops(s4);
  }

  lemma PostsEarly(routine: nat, x: nat) returns (st: State)
    ensures var first := [SetRoutines([routine]), Post(x, false), Enter(false), TestCancel];
            Executes(Init(), first) && st == Run(Init(), first)
    ensures var s1 := S.SetRoutines(S.Init(), [routine]);
            st == Init().(s := s1.(zero := F.Fifo([Entry(0, x)], -1)), worker := CheckFlush,
                          posted := [x], early := {0})
  {
    var s1 := Apply(Init(), SetRoutines([routine]));
    var s2 := Apply(s1, Post(x, false));
    assert [] + [Entry(0, x)] == [Entry(0, x)];
    assert s2 == s1.(s := s1.s.(zero := F.Fifo([Entry(0, x)], -1)), posted := [x], early := {0});
    var s3 := Apply(s2, Enter(false));
    assert s3 == s2.(worker := Top);
    FourSteps(Init(), SetRoutines([routine]), Post(x, false), Enter(false), TestCancel);
    st := Apply(s3, TestCancel);
  }

  lemma SecondVisitDrops(st: State)
    requires st.worker == CheckFlush && !st.flushFlag && !st.cancelFlag && st.lock == Free && st.s.dq.None?
    requires H.Proper(st.s.routines) && st.s.routines.reload && H.Current(H.Step(st.s.routines, H.Switch)) != []
    ensures var second := [TestFlush, LookAtRoutines, PullItem, Enter(false)];
            && Executes(st, second)
            && Run(st, second).discarded == st.discarded + st.s.zero.items
            && Run(st, second).given == st.given
  {
    var s1 := Apply(st, TestFlush);
    assert s1 == st.(worker := Look);
    LookGivesQueue(s1);
    var s2 := Apply(s1, LookAtRoutines);
    EmptyPull(s2);
    FourSteps(st, TestFlush, LookAtRoutines, PullItem, Enter(false));
  }

  lemma LookGivesQueue(st: State)
    requires Enabled(st, LookAtRoutines) && st.s.dq.None?
    requires st.s.routines.reload && H.Current(H.Step(st.s.routines, H.Switch)) != []
    ensures var s2 := Apply(st, LookAtRoutines);
            s2 == st.(worker := AtQueue, s := s2.s) && s2.s.dq == Some(F.Empty()) && s2.s.zero == st.s.zero
  {
  }

  lemma EmptyPull(st: State)
    requires st.worker == AtQueue && st.lock == Free && st.s.dq == Some(F.Empty()) && !st.cancelFlag
    ensures Enabled(st, PullItem) && Apply(st, PullItem) == st.(worker := Idle)
    ensures Enabled(Apply(st, PullItem), Enter(false))
    ensures Apply(Apply(st, PullItem), Enter(false)).discarded == st.discarded + st.s.zero.items
    ensures Apply(Apply(st, PullItem), Enter(false)).given == st.given
  {
  }

  // ---- runs put together ----

  lemma OneStep(st: State, step: Step)
    requires Enabled(st, step)
    ensures Executes(st, [step]) && Run(st, [step]) == Apply(st, step)
  {
    assert [step][1..] == [];
    assert Executes(Apply(st, step), []) && Run(Apply(st, step), []) == Apply(st, step);
  }

  lemma StepFirst(st: State, step: Step, rest: seq<Step>)
    requires Enabled(st, step) && Executes(Apply(st, step), rest)
    ensures Executes(st, [step] + rest) && Run(st, [step] + rest) == Run(Apply(st, step), rest)
  {
    assert ([step] + rest)[1..] == rest;
  }

  lemma {:induction false} RunsJoin(st: State, first: seq<Step>, second: seq<Step>)
    requires Executes(st, first) && Executes(Run(st, first), second)
    ensures Executes(st, first + second) && Run(st, first + second) == Run(Run(st, first), second)
    decreases first
  {
    if first == [] {
      assert first + second == second;
    } else {
      RunsJoin(Apply(st, first[0]), first[1..], second);
      StepFirst(st, first[0], first[1..] + second);
      assert [first[0]] + (first[1..] + second) == first + second;
    }
  }

  lemma FourSteps(st: State, a: Step, b: Step, c: Step, d: Step)
    requires Enabled(st, a) && Enabled(Apply(st, a), b) && Enabled(Apply(Apply(st, a), b), c)
    requires Enabled(Apply(Apply(Apply(st, a), b), c), d)
    ensures Executes(st, [a, b, c, d])
    ensures Run(st, [a, b, c, d]) == Apply(Apply(Apply(Apply(st, a), b), c), d)
  {
    var s1 := Apply(st, a);
    var s2 := Apply(s1, b);
    var s3 := Apply(s2, c);
    OneStep(s3, d);
    StepFirst(s2, c, [d]);
    StepFirst(s1, b, [c] + [d]);
    StepFirst(st, a, [b] + ([c] + [d]));
    assert [a] + ([b] + ([c] + [d])) == [a, b, c, d];
  }

  // ---- a flush that nobody interrupts ----

  /** The data queue once a flush is through with it. */
  function Flushed(q: F.Fifo<Entry>): (q': F.Fifo<Entry>) { F.Fifo(if q.owner < 0 then [] else q.items, -1) }

  function TakenByFlush(st: State): (items: seq<Entry>) {
    if st.s.dq.Some? && st.s.dq.value.owner < 0 then st.s.dq.value.items else []
  }

  /** One step of a flush takes the front item or ends the flush. */
  lemma TakesFront(st: State, ends: State)
    requires st.s.dq.Some? && st.s.dq.value.owner < 0 && st.s.dq.value.items != []
    ensures var items := st.s.dq.value.items;
            TakeOne(st, ends) == st.(collected := st.collected + [items[0]],
                                     s := st.s.(dq := Some(F.Fifo(items[1..], -1))))
  {
    var q := st.s.dq.value;
    assert |q.items| == 1 ==> q.items[1..] == [];
    assert F.AfterPull(q, -1) == F.Fifo(q.items[1..], -1);
  }

  lemma Stops(st: State, ends: State)
    requires TakenByFlush(st) == []
    ensures TakeOne(st, ends)
         == ends.(flushFlag := false,
                  s := st.s.(dq := if st.s.dq.Some? then Some(Flushed(st.s.dq.value)) else None))
  {
  }

  lemma {:induction false} FlushGoesOn(st: State) returns (steps: seq<Step>)
    requires st.lock == ByOther
    ensures Executes(st, steps)
    ensures var st' := Run(st, steps);
            && st' == st.(lock := Free, flushFlag := false, collected := st'.collected, s := st'.s)
            && st'.collected == st.collected + TakenByFlush(st)
            && st'.s == st.s.(dq := if st.s.dq.Some? then Some(Flushed(st.s.dq.value)) else None)
    decreases |Stored(st.s.dq)|
  {
    var st1 := Apply(st, OtherFlushNext);
    if TakenByFlush(st) != [] {
      TakesFront(st, st.(lock := Free));
      var rest := FlushGoesOn(st1);
      StepFirst(st, OtherFlushNext, rest);
      steps := [OtherFlushNext] + rest;
      var items := st.s.dq.value.items;
      assert (st.collected + [items[0]]) + items[1..] == st.collected + items;
    } else {
      Stops(st, st.(lock := Free));
      OneStep(st, OtherFlushNext);
      steps := [OtherFlushNext];
      assert st.collected + [] == st.collected;
    }
  }

  /** A flush that runs through without interruption does what the flush of a session without nulls does:
    * the early queue and, unless it is owned, the data queue end empty, their items are collected in that
    * order, nobody owns the data queue, and the request is taken back. */
  lemma UninterruptedFlush(st: State) returns (steps: seq<Step>)
    requires st.lock == Free
    ensures Executes(st, steps)
    ensures var st' := Run(st, steps);
            && st' == st.(flushFlag := false, collected := st'.collected, s := st'.s)
            && st'.collected == st.collected + st.s.zero.items + TakenByFlush(st)
            && st'.s == st.s.(zero := st.s.zero.(items := []),
                              dq := if st.s.dq.Some? then Some(Flushed(st.s.dq.value)) else None)
  {
    var st1 := Apply(st, OtherFlushBegin);
    var rest := FlushGoesOn(st1);
    StepFirst(st, OtherFlushBegin, rest);
    steps := [OtherFlushBegin] + rest;
  }

  // ---- requested flushes and cancellations ----

  /** A cancellation is never taken back. */
  lemma {:induction false} CancelIsFinal(st: State, steps: seq<Step>)
    requires Executes(st, [Cancel] + steps)
    ensures Run(st, [Cancel] + steps).cancelFlag
  {
    assert ([Cancel] + steps)[1..] == steps;
    CancelStays(Apply(st, Cancel), steps);
  }

  lemma {:induction false} CancelStays(st: State, steps: seq<Step>)
    requires st.cancelFlag && Executes(st, steps)
    ensures Run(st, steps).cancelFlag
    decreases steps
  {
    if steps != [] {
      CancelStepStays(st, steps[0]);
      CancelStays(Apply(st, steps[0]), steps[1..]);
    }
  }

  lemma CancelStepStays(st: State, step: Step)
    requires st.cancelFlag && Enabled(st, step)
    ensures Apply(st, step).cancelFlag
  {
  }

  /** The worker's own flush, once it has the lock, takes what another caller's would. */
  lemma {:induction false} WorkerFlushGoesOn(st: State) returns (steps: seq<Step>)
    requires st.worker.Flushing?
    ensures Executes(st, steps)
    ensures var st' := Run(st, steps);
            && st' == st.(lock := Free, worker := st.worker.next, flushFlag := false,
                          collected := st'.collected, s := st'.s)
            && st'.collected == st.collected + TakenByFlush(st)
            && st'.s == st.s.(dq := if st.s.dq.Some? then Some(Flushed(st.s.dq.value)) else None)
    decreases |Stored(st.s.dq)|
  {
    var st1 := Apply(st, FlushNext);
    if TakenByFlush(st) != [] {
      TakesFront(st, st.(lock := Free, worker := st.worker.next));
      var items := st.s.dq.value.items;
      var rest := WorkerFlushGoesOn(st1);
      StepFirst(st, FlushNext, rest);
      steps := [FlushNext] + rest;
      assert (st.collected + [items[0]]) + items[1..] == st.collected + items;
    } else {
      Stops(st, st.(lock := Free, worker := st.worker.next));
      OneStep(st, FlushNext);
      steps := [FlushNext];
      assert st.collected + [] == st.collected;
    }
  }

  /** The worker flushes and goes on as planned. */
  lemma WorkerFlushes(st: State) returns (steps: seq<Step>)
    requires st.worker.NeedFlush? && st.lock == Free
    ensures Executes(st, steps)
    ensures var st' := Run(st, steps);
            && st' == st.(worker := st.worker.next, flushFlag := false, collected := st'.collected, s := st'.s)
            && st'.collected == st.collected + st.s.zero.items + TakenByFlush(st)
            && st'.s == st.s.(zero := st.s.zero.(items := []),
                              dq := if st.s.dq.Some? then Some(Flushed(st.s.dq.value)) else None)
  {
    var rest := WorkerFlushGoesOn(Apply(st, FlushBegin));
    StepFirst(st, FlushBegin, rest);
    steps := [FlushBegin] + rest;
  }

  /** A visit to a session that was cancelled between two visits collects what the data queue holds, runs
    * no routine, and leaves the session cancelled. */
  lemma CancelledVisitCollects(st: State) returns (steps: seq<Step>)
    requires st.worker == Idle && st.lock == Free && st.s.dq.Some? && st.s.dq.value.owner == -1
    ensures Executes(st, [Cancel, Enter(false)] + steps)
    ensures var st' := Run(st, [Cancel, Enter(false)] + steps);
            && st'.collected == st.collected + Stored(st.s.dq) && Stored(st'.s.dq) == [] && st'.s.zero.items == []
            && st'.given == st.given && st'.worker == Idle && st'.cancelFlag
  {
    var s1 := Apply(st, Cancel);
    var s2 := Apply(s1, Enter(false));
    assert s2.s.zero.items == [] && Stored(s2.s.dq) == Stored(st.s.dq) && s2.s.dq.value.owner == -1;
    steps := WorkerFlushes(s2);
    assert s2.collected + [] + TakenByFlush(s2) == st.collected + Stored(st.s.dq);
    StepFirst(s1, Enter(false), steps);
    StepFirst(st, Cancel, [Enter(false)] + steps);
    assert [Cancel] + ([Enter(false)] + steps) == [Cancel, Enter(false)] + steps;
  }

  /** A flush requested between two visits collects what the data queue holds before the next look at the
    * routines. */
  lemma RequestedFlushCollects(st: State) returns (steps: seq<Step>)
    requires st.worker == Idle && st.lock == Free && !st.cancelFlag
    requires st.s.dq.Some? && st.s.dq.value.owner == -1
    ensures var begin := [RequestFlush, Enter(false), TestCancel, TestFlush];
            && Executes(st, begin + steps)
            && (var st' := Run(st, begin + steps);
                && st'.collected == st.collected + Stored(st.s.dq) && Stored(st'.s.dq) == []
                && st'.given == st.given && st'.worker == Look && !st'.flushFlag)
  {
    var begin := [RequestFlush, Enter(false), TestCancel, TestFlush];
    var s4 := VisitBeginsToFlush(st);
    steps := WorkerFlushes(s4);
    assert s4.collected + [] + TakenByFlush(s4) == st.collected + Stored(st.s.dq);
    RunsJoin(st, begin, steps);
  }

  lemma VisitBeginsToFlush(st: State) returns (s4: State)
    requires st.worker == Idle && st.lock == Free && !st.cancelFlag
    requires st.s.dq.Some? && st.s.dq.value.owner == -1
    ensures var begin := [RequestFlush, Enter(false), TestCancel, TestFlush];
            Executes(st, begin) && s4 == Run(st, begin)
    ensures s4.worker == NeedFlush(Look) && s4.lock == Free && s4.flushFlag
    ensures s4.s.zero.items == [] && s4.s.dq == st.s.dq && s4.collected == st.collected && s4.given == st.given
  {
    var s1 := Apply(st, RequestFlush);
    var s2 := Apply(s1, Enter(false));
    assert s2.worker == Top && s2.flushFlag && !s2.cancelFlag && s2.s.zero.items == [] && s2.s.dq == st.s.dq;
    var s3 := Apply(s2, TestCancel);
    FourSteps(st, RequestFlush, Enter(false), TestCancel, TestFlush);
    s4 := Apply(s3, TestFlush);
  }

  // ---- which pending items can still be served ----

  /** The early queue holds only early items, and the data queue is owned only between the worker's
    * pull and its giving back. */
  ghost predicate OriginInv(st: State) {
    && (forall e | e in st.s.zero.items :: e.stamp in st.early)
    && (st.s.dq.Some? ==> Owned(st.s.dq.value.owner, st.worker))
  }

  predicate Owned(owner: int, p: Phase) {
    owner == -1 || (owner == 0 && (p.Pulled? || p.Leaving?))
  }

  lemma TakeOneKeepsOrigin(st: State, lock: Lock, p: Phase)
    requires OriginInv(st) && InHand(p) == InHand(st.worker)
    ensures OriginInv(TakeOne(st, st.(lock := lock, worker := p)))
    ensures TakeOne(st, st.(lock := lock, worker := p)).early == st.early
  {
    var st' := TakeOne(st, st.(lock := lock, worker := p));
    assert st'.s.zero == st.s.zero;
    assert (p.Pulled? || p.Leaving?) <==> |InHand(p)| == 1;
    assert st'.s.dq.Some? ==> Owned(st'.s.dq.value.owner, st'.worker);
  }

  lemma PostKeepsOrigin(st: State, x: nat)
    requires OriginInv(st)
    ensures OriginInv(Accept(st, x))
  {
    if st.s.dq.None? {
      assert Accept(st, x).s.zero.items == st.s.zero.items + [Entry(|st.posted|, x)];
    } else {
      assert Accept(st, x).s.zero == st.s.zero && Accept(st, x).s.dq.value.owner == st.s.dq.value.owner;
    }
  }

  lemma PullKeepsOrigin(st: State)
    requires OriginInv(st) && Enabled(st, PullItem)
    ensures OriginInv(Apply(st, PullItem))
  {
    var st' := Apply(st, PullItem);
    assert st'.s.zero == st.s.zero;
    assert st.s.dq.value.owner == -1;
    assert st'.s.dq.value.owner == -1 || (st'.s.dq.value.owner == 0 && st'.worker.Pulled?);
  }

  /** A step that leaves the two queues as they are, or empties or frees them. */
  lemma QuietKeepsOrigin(st: State, step: Step)
    requires OriginInv(st) && QueueInv(st) && Enabled(st, step)
    requires !step.Post? && !step.PullItem? && !step.OtherFlushNext? && !step.FlushNext?
    ensures OriginInv(Apply(st, step))
  {
    var st' := Apply(st, step);
    assert st'.s.zero.items == st.s.zero.items || st'.s.zero.items == [];
    assert st'.early == st.early;
    assert st'.s.dq.Some? ==>
             st'.s.dq.value.owner == -1 || (st.s.dq.Some? && st'.s.dq.value.owner == st.s.dq.value.owner);
  }

  lemma EarlyGrows(st: State, step: Step)
    requires Enabled(st, step)
    ensures st.early <= Apply(st, step).early
  {
  }

  lemma StepKeepsOrigin(st: State, step: Step)
    requires OriginInv(st) && QueueInv(st) && Enabled(st, step)
    ensures OriginInv(Apply(st, step)) && st.early <= Apply(st, step).early
  {
    EarlyGrows(st, step);
    match step
    case Post(x, sawFlush) => PostKeepsOrigin(st, x);
    case PullItem => PullKeepsOrigin(st);
    case OtherFlushNext => TakeOneKeepsOrigin(st, Free, st.worker);
    case FlushNext => TakeOneKeepsOrigin(st, Free, st.worker.next);
    case _ => QuietKeepsOrigin(st, step);
  }

  lemma {:induction false} RunKeepsOrigin(st: State, steps: seq<Step>)
    requires OriginInv(st) && QueueInv(st) && Executes(st, steps)
    ensures OriginInv(Run(st, steps)) && QueueInv(Run(st, steps)) && st.early <= Run(st, steps).early
    decreases steps
  {
    if steps != [] {
      StepKeepsOrigin(st, steps[0]);
      StepKeepsQueueInv(st, steps[0]);
      RunKeepsOrigin(Apply(st, steps[0]), steps[1..]);
    }
  }

  /** Nothing stands in the way of serving: the lock is free, neither a flush nor a cancellation is
    * requested, and no change of routines is pending. */
  ghost predicate Calm(st: State) {
    st.lock == Free && !st.flushFlag && !st.cancelFlag && H.Proper(st.s.routines) && !st.s.routines.reload
  }

  ghost predicate Ready(st: State) {
    Calm(st) && st.worker == Top && st.s.dq.Some? && st.s.dq.value.owner == -1
  }

  /** A round of the worker's loop in a calm state: up to the pull, and from the pull on. */
  const TO_QUEUE := [TestCancel, TestFlush, LookAtRoutines]

  const FROM_QUEUE := [PullItem, PassLock, GiveBack, Finish(false)]

  lemma ReachesQueue(st: State)
    requires Ready(st)
    ensures Executes(st, TO_QUEUE) && Run(st, TO_QUEUE) == st.(worker := AtQueue)
  {
    var s1 := Apply(st, TestCancel);
    assert s1 == st.(worker := CheckFlush);
    var s2 := Apply(s1, TestFlush);
    assert s2 == st.(worker := Look);
    assert Apply(s2, LookAtRoutines) == st.(worker := AtQueue) by {
      assert st.discarded + [] == st.discarded;
    }
    OneStep(s2, LookAtRoutines);
    StepFirst(s1, TestFlush, [LookAtRoutines]);
    StepFirst(st, TestCancel, [TestFlush] + [LookAtRoutines]);
    assert [TestCancel] + ([TestFlush] + [LookAtRoutines]) == TO_QUEUE;
  }

  /** What a calm round leaves: the oldest item has been processed. */
  function Served(st: State): (st': State)
    requires st.s.dq.Some? && st.s.dq.value.items != []
  {
    var items := st.s.dq.value.items;
    st.(s := st.s.(dq := Some(F.Fifo(items[1..], -1))), worker := Top,
        given := st.given + [items[0]], processed := st.processed + [items[0]])
  }

  lemma ServesOne(st: State)
    requires Calm(st) && st.worker == AtQueue && st.s.dq.Some? && st.s.dq.value.owner == -1
    requires st.s.dq.value.items != []
    ensures Executes(st, FROM_QUEUE) && Run(st, FROM_QUEUE) == Served(st)
  {
    var x := st.s.dq.value.items[0];
    var s2 := TakesFirst(st);
    var s3 := Apply(s2, GiveBack);
    assert s3 == s2.(s := st.s.(dq := Some(F.Fifo(st.s.dq.value.items[1..], -1))), worker := Running(x),
                     given := st.given + [x]);
    FourSteps(st, PullItem, PassLock, GiveBack, Finish(false));
  }

  lemma TakesFirst(st: State) returns (s2: State)
    requires Calm(st) && st.worker == AtQueue && st.s.dq.Some? && st.s.dq.value.owner == -1
    requires st.s.dq.value.items != []
    ensures Enabled(st, PullItem) && Enabled(Apply(st, PullItem), PassLock)
    ensures s2 == Apply(Apply(st, PullItem), PassLock)
    ensures s2 == st.(s := st.s.(dq := Some(F.AfterPull(st.s.dq.value, 0))), worker := Leaving(st.s.dq.value.items[0]))
    ensures F.AfterPull(st.s.dq.value, 0).items == st.s.dq.value.items[1..]
  {
    var s1 := Apply(st, PullItem);
    assert s1.worker == Pulled(st.s.dq.value.items[0]);
    s2 := Apply(s1, PassLock);
  }

  lemma {:induction false} ServesUpTo(st: State, m: nat) returns (more: seq<Step>)
    requires Ready(st) && m < |st.s.dq.value.items|
    ensures Executes(st, more) && st.s.dq.value.items[m] in Run(st, more).given
    decreases m
  {
    ReachesQueue(st);
    ServesOne(Run(st, TO_QUEUE));
    RunsJoin(st, TO_QUEUE, FROM_QUEUE);
    more := TO_QUEUE + FROM_QUEUE;
    var st1 := Run(st, more);
    assert st1 == Served(st);
    if m > 0 {
      var rest := ServesUpTo(st1, m - 1);
      RunsJoin(st, more, rest);
      more := more + rest;
    }
  }

  // ---- items that can no longer be served ----

  /** The worker has not yet looked at the routines. */
  predicate BeforeLook(p: Phase) {
    p.Idle? || p.Top? || p.CheckFlush? || p.Look? || ((p.NeedFlush? || p.Flushing?) && Resumes(p.next))
  }

  /** The worker has not yet got past the test for a requested flush, or is flushing. */
  predicate BeforeFlush(p: Phase) {
    p.Idle? || p.Top? || p.CheckFlush? || p.NeedFlush? || p.Flushing?
  }

  /** What a cancelled session's visits consist of. */
  predicate OnlyFlushes(p: Phase) {
    p == Idle || p == NeedFlush(Idle) || p == Flushing(Idle)
  }

  /** Something takes away what the data queue holds before the worker pulls again: a change of
    * routines, a requested flush that no caller is about to take back, or a cancellation. */
  predicate Threatened(st: State) {
    || (st.s.routines.reload && BeforeLook(st.worker))
    || (st.flushFlag && st.clearing == 0 && BeforeFlush(st.worker))
    || (st.cancelFlag && OnlyFlushes(st.worker))
  }

  /** `e` has not been given to the routines and is not in hand, and if it is still queued it is about to
    * be taken away. */
  ghost predicate Lost(st: State, e: Entry) {
    && e.stamp < |st.posted| && e !in st.given && e !in InHand(st.worker)
    && (e in Stored(st.s.dq) ==> st.s.dq.value.owner == -1 && Threatened(st))
  }

  lemma TakeOneKeepsLost(st: State, lock: Lock, p: Phase, e: Entry)
    requires Lost(st, e) && InHand(p) == InHand(st.worker)
    requires p == st.worker || (st.worker == Flushing(p) && Resumes(p))
    ensures Lost(TakeOne(st, st.(lock := lock, worker := p)), e)
  {
    var st' := TakeOne(st, st.(lock := lock, worker := p));
    if e in Stored(st.s.dq) {
      assert F.Pulled(st.s.dq.value, -1).Some?;
      assert st'.worker == st.worker && st'.flushFlag == st.flushFlag;
    }
    assert e in Stored(st'.s.dq) ==> e in Stored(st.s.dq);
  }

  lemma PullKeepsLost(st: State, e: Entry)
    requires Lost(st, e) && Enabled(st, PullItem)
    ensures Lost(Apply(st, PullItem), e)
  {
    assert e !in Stored(st.s.dq);
  }

  lemma PostKeepsLost(st: State, x: nat, e: Entry)
    requires Lost(st, e)
    ensures Lost(Accept(st, x), e)
  {
    assert e in Stored(Accept(st, x).s.dq) ==> e in Stored(st.s.dq);
  }

  lemma LookKeepsLost(st: State, e: Entry)
    requires Lost(st, e) && Enabled(st, LookAtRoutines)
    ensures Lost(LookAt(st), e)
  {
    assert !st.s.routines.reload ==> e !in Stored(st.s.dq);
    assert e !in Stored(LookAt(st).s.dq);
  }

  /** A step that leaves the data queue as it is and gives nothing to the routines. */
  lemma QuietKeepsLost(st: State, step: Step, e: Entry)
    requires Lost(st, e) && Enabled(st, step) && MovesNothing(step)
    ensures Lost(Apply(st, step), e)
  {
    assert Stored(Apply(st, step).s.dq) == Stored(st.s.dq);
  }

  lemma WorkerKeepsLost(st: State, step: Step, e: Entry)
    requires Lost(st, e) && QueueInv(st) && Enabled(st, step)
    requires step.Enter? || step.GiveBack? || step.Finish? || step.FlushBegin? || step.OtherFlushBegin?
    ensures Lost(Apply(st, step), e)
  {
    assert Stored(Apply(st, step).s.dq) == Stored(st.s.dq);
  }

  lemma StepKeepsLost(st: State, step: Step, e: Entry)
    requires Lost(st, e) && QueueInv(st) && Enabled(st, step)
    ensures Lost(Apply(st, step), e)
  {
    if MovesNothing(step) {
      QuietKeepsLost(st, step, e);
    } else {
      match step
      case Post(x, sawFlush) => PostKeepsLost(st, x, e);
      case PullItem => PullKeepsLost(st, e);
      case LookAtRoutines => LookKeepsLost(st, e);
      case OtherFlushNext => TakeOneKeepsLost(st, Free, st.worker, e);
      case FlushNext => TakeOneKeepsLost(st, Free, st.worker.next, e);
      case _ => WorkerKeepsLost(st, step, e);
    }
  }

  lemma {:induction false} LostNeverGiven(st: State, steps: seq<Step>, e: Entry)
    requires Lost(st, e) && QueueInv(st) && Executes(st, steps)
    ensures e !in Run(st, steps).given
    decreases steps
  {
    if steps != [] {
      StepKeepsLost(st, steps[0], e);
      StepKeepsQueueInv(st, steps[0]);
      LostNeverGiven(Apply(st, steps[0]), steps[1..], e);
    }
  }

  /** A pending item was not given to the routines. */
  lemma PendingNotGiven(st: State, e: Entry)
    requires Inv(st) && OriginInv(st) && st.worker == Idle && e in st.s.zero.items + Stored(st.s.dq)
    ensures e.stamp < |st.posted| && e !in st.given
  {
    assert e in Places(st);
    assert e in Log(st.posted);
    QueuedInLine(st);
    assert forall i | 0 <= i < |st.given| :: Line(st)[i] == st.given[i];
  }

  /** Between two visits, with the lock free, a pending item can still be given to the routines, in some
    * continuation, if and only if it was not accepted by the early queue, no change of routines is
    * pending, no cancellation is requested, and no flush either, unless a caller posting an empty
    * vector is about to take the request back. */
  lemma ServableIff(steps: seq<Step>, k: nat)
    requires Executes(Init(), steps)
    requires var st := Run(Init(), steps);
             && st.worker == Idle && st.lock == Free && k < |st.posted|
             && Entry(k, st.posted[k]) in st.s.zero.items + Stored(st.s.dq)
    ensures var st := Run(Init(), steps);
            (exists more :: Executes(st, more) && Entry(k, st.posted[k]) in Run(st, more).given)
              <==> && k !in st.early && !st.s.routines.reload && !st.cancelFlag
                   && (st.flushFlag ==> st.clearing > 0)
  {
    var st := Run(Init(), steps);
    var e := Entry(k, st.posted[k]);
    InitKeepsInv();
    RunKeepsInv(Init(), steps);
    RunKeepsOrigin(Init(), steps);
    if k in st.early {
      forall more | Executes(st, more)
        ensures e !in Run(st, more).given
      {
        EarlyNeverGiven(steps, more, e);
      }
    } else if Threatened(st) {
      PendingNotGiven(st, e);
      forall more | Executes(st, more)
        ensures e !in Run(st, more).given
      {
        LostNeverGiven(st, more, e);
      }
    } else {
      var more := ServesPending(st, e);
    }
  }

  lemma ServesPending(st: State, e: Entry) returns (more: seq<Step>)
    requires OriginInv(st) && H.Proper(st.s.routines) && st.worker == Idle && st.lock == Free
    requires e in Stored(st.s.dq) && !Threatened(st)
    ensures Executes(st, more) && e in Run(st, more).given
    decreases st.flushFlag
  {
    if st.flushFlag {
      var cleared := Apply(st, ClearForEmptyVector);
      var rest := ServesPending(cleared, e);
      StepFirst(st, ClearForEmptyVector, rest);
      more := [ClearForEmptyVector] + rest;
    } else {
      var items := st.s.dq.value.items;
      var m :| 0 <= m < |items| && items[m] == e;
      var st1 := Apply(st, Enter(false));
      assert Ready(st1) && st1.s.dq.value.items == items;
      var rest := ServesUpTo(st1, m);
      StepFirst(st, Enter(false), rest);
      more := [Enter(false)] + rest;
    }
  }

  lemma EarlyNeverGiven(steps: seq<Step>, more: seq<Step>, e: Entry)
    requires Executes(Init(), steps) && Executes(Run(Init(), steps), more)
    requires e.stamp in Run(Init(), steps).early
    ensures e !in Run(Run(Init(), steps), more).given
  {
    var st := Run(Init(), steps);
    RunKeepsOrigin(Init(), steps);
    RunKeepsOrigin(st, more);
    RunsJoin(Init(), steps, more);
    GivenInOrder(steps + more);
  }

  /** In every run, a visit that begins while there is a data queue discards exactly what is in the
    * early queue, all of it early items; of these none is pending any more. */
  lemma VisitDropsEarly(steps: seq<Step>, expired: bool)
    requires Executes(Init(), steps)
    requires Enabled(Run(Init(), steps), Enter(expired)) && Run(Init(), steps).s.dq.Some?
    ensures var st := Run(Init(), steps);
            var st' := Apply(st, Enter(expired));
            && st'.discarded == st.discarded + st.s.zero.items && st'.s.zero.items == []
            && (forall e | e in st.s.zero.items :: e.stamp in st.early)
            && (forall k | k in st.early :: k < |st.posted| && Entry(k, st.posted[k]) in st'.collected + st'.discarded)
  {
    var st := Run(Init(), steps);
    InitKeepsInv();
    RunKeepsInv(Init(), steps);
    RunKeepsOrigin(Init(), steps);
    StepKeepsInv(st, Enter(expired));
    EnterDrops(st, expired);
    var st' := Apply(st, Enter(expired));
    forall k | k in st.early
      ensures k < |st.posted| && Entry(k, st.posted[k]) in st'.collected + st'.discarded
    {
      NotPending(st', k);
    }
  }

  /** In every run, a look at the routines with a change pending discards exactly what is in the data
    * queue; nothing of it is collected. */
  lemma RebuildDropsQueued(steps: seq<Step>)
    requires Executes(Init(), steps)
    requires Enabled(Run(Init(), steps), LookAtRoutines) && Run(Init(), steps).s.routines.reload
    ensures var st := Run(Init(), steps);
            var st' := Apply(st, LookAtRoutines);
            && st'.discarded == st.discarded + Stored(st.s.dq) && Stored(st'.s.dq) == []
            && st'.collected == st.collected && st'.given == st.given
            && (forall e | e in Stored(st.s.dq) :: e.stamp !in st.early && e !in st.given)
  {
    InitKeepsInv();
    RunKeepsInv(Init(), steps);
    QueuedInLine(Run(Init(), steps));
  }

  lemma QueuedInLine(st: State)
    requires LineInv(st)
    ensures forall e | e in Stored(st.s.dq) :: e.stamp !in st.early && e !in st.given
  {
    forall e | e in Stored(st.s.dq)
      ensures e.stamp !in st.early && e !in st.given
    {
      var m :| 0 <= m < |Stored(st.s.dq)| && Stored(st.s.dq)[m] == e;
      assert Line(st)[|st.given| + |InHand(st.worker)| + m] == e;
      assert forall i | 0 <= i < |st.given| :: Line(st)[i] == st.given[i];
    }
  }

  /** Such losses happen to items that the data queue accepted: the routines are set, a visit creates the
    * data queue, an item is posted, the routines are set again, and the next visit drops the item. */
  lemma QueuedItemLost(first: nat, second: nat, x: nat)
    ensures var create := [SetRoutines([first]), Enter(false), TestCancel, TestFlush];
            var post := [LookAtRoutines, PullItem, Post(x, false), SetRoutines([second])];
            var visit := [Enter(false), TestCancel, TestFlush, LookAtRoutines];
            && Executes(Init(), create) && Executes(Run(Init(), create), post)
            && Executes(Run(Run(Init(), create), post), visit)
            && (var st := Run(Run(Init(), create), post); Stored(st.s.dq) == [Entry(0, x)] && st.early == {})
            && (var st := Run(Run(Run(Init(), create), post), visit);
                st.discarded == [Entry(0, x)] && st.given == [] && st.collected == [])
  {
    var s4 := Creates(first);
    var s8 := PostsAndSets(s4, second, x);
    VisitDiscards(s8);
  }

  lemma Creates(first: nat) returns (st: State)
    ensures var create := [SetRoutines([first]), Enter(false), TestCancel, TestFlush];
            Executes(Init(), create) && st == Run(Init(), create)
    ensures st == Init().(worker := Look, s := S.SetRoutines(S.Init(), [first]))
  {
    var s1 := Apply(Init(), SetRoutines([first]));
    var s2 := Apply(s1, Enter(false));
    assert s2 == s1.(worker := Top);
    FourSteps(Init(), SetRoutines([first]), Enter(false), TestCancel, TestFlush);
    st := Apply(Apply(s2, TestCancel), TestFlush);
  }

  lemma PostsAndSets(s4: State, second: nat, x: nat) returns (st: State)
    requires s4.worker == Look && s4.lock == Free && s4.s.dq.None? && s4.posted == []
    requires H.Proper(s4.s.routines) && s4.s.routines.reload && H.Current(H.Step(s4.s.routines, H.Switch)) != []
    requires !s4.flushFlag && !s4.cancelFlag
    ensures var post := [LookAtRoutines, PullItem, Post(x, false), SetRoutines([second])];
            Executes(s4, post) && st == Run(s4, post)
    ensures st.worker == Idle && st.s.dq == Some(F.Fifo([Entry(0, x)], -1)) && st.s.routines.reload
    ensures H.Proper(st.s.routines) && st.s.zero == s4.s.zero
    ensures st.(s := s4.s, posted := [], worker := Look) == s4
  {
    LookGivesQueue(s4);
    var s5 := Apply(s4, LookAtRoutines);
    var s6 := Apply(s5, PullItem);
    assert s6 == s5.(worker := Idle);
    var s7 := Apply(s6, Post(x, false));
    assert s7.s.dq == Some(F.Fifo([Entry(0, x)], -1)) by {
      assert [] + [Entry(0, x)] == [Entry(0, x)];
    }
    FourSteps(s4, LookAtRoutines, PullItem, Post(x, false), SetRoutines([second]));
    st := Apply(s7, SetRoutines([second]));
  }

  lemma VisitDiscards(st: State)
    requires st.worker == Idle && st.lock == Free && !st.flushFlag && !st.cancelFlag && st.s.zero.items == []
    requires H.Proper(st.s.routines) && st.s.routines.reload && st.s.dq.Some?
    ensures var visit := [Enter(false), TestCancel, TestFlush, LookAtRoutines];
            && Executes(st, visit)
            && Run(st, visit).discarded == st.discarded + Stored(st.s.dq)
            && Run(st, visit).given == st.given && Run(st, visit).collected == st.collected
  {
    var s1 := Apply(st, Enter(false));
    assert s1.worker == Top && s1.discarded == st.discarded && Stored(s1.s.dq) == Stored(st.s.dq);
    var s2 := Apply(s1, TestCancel);
    var s3 := Apply(s2, TestFlush);
    assert s3 == s1.(worker := Look);
    FourSteps(st, Enter(false), TestCancel, TestFlush, LookAtRoutines);
  }

  lemma EnterDrops(st: State, expired: bool)
    requires Enabled(st, Enter(expired)) && st.s.dq.Some?
    ensures var st' := Apply(st, Enter(expired));
            && st'.discarded == st.discarded + st.s.zero.items && st'.s.zero.items == []
            && st'.posted == st.posted && st'.early == st.early
  {
  }

  lemma NotPending(st: State, k: nat)
    requires Inv(st) && k in st.early && st.s.zero.items == []
    ensures k < |st.posted| && Entry(k, st.posted[k]) in st.collected + st.discarded
  {
    NotInLine(st, k);
  }
}
