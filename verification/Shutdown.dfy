/** Starting the workers, shutting them down, and the collector they share, as a transition system
  * over any number of workers. Each region under one mutex and each atomic access outside one is
  * a step of its own. */
module Shutdown {
  import opened Sequences
  import opened WorkSplit

  /** The width of the shutdown counter and of the stored processor count. */
  const COUNTER := 0x1_0000

  /** The configuration with which the threads are created, from the processor count as it is stored.
    * None stands for the division by zero that stops the creation before its first thread. */
  function Configured(n: nat): (o: Option<Config>) {
    var numCPUs := n % COUNTER;
    if numCPUs == 0 then None
    else Some(Config(numCPUs / numCPUs, numCPUs % numCPUs, numCPUs, numCPUs))
  }

  /** Where a worker is. From `Subtract` on it has left its work loop. */
  datatype Place =
    | NotStarted
    | LoopTop          // about to read the shutdown flag
    | TryCollector     // about to compare-and-swap the collector's flag
    | Disposing        // inside the bounded disposal
    | ClearCollector   // about to clear the collector's flag
    | Working          // serving a session
    | Subtract         // about to decrement the counter
    | Load             // about to read the counter
    | LockForSet       // about to take the mutex
    | Setting          // holds the mutex, about to set the completion flag
    | DisposingAll     // holds the mutex, inside the full disposal
    | Unlocking        // holds the mutex, about to release it
    | Notify           // about to notify the caller
    | Returned

  /** Where the single caller of shutdown is. */
  datatype Caller =
    | Outside
    | WantsMutex       // the flag is set
    | Holds            // about to test the completion flag
    | SawIncomplete    // holds the mutex, about to sleep
    | Asleep
    | Done

  datatype Owner = Free | ByCaller | ByWorker(id: nat)

  datatype State = State(
    workers: seq<Place>,
    counted: nat,          // workers counted so far by the creator
    cont: int,             // the counter, modulo its width
    active: bool,          // the collector's flag
    toShutdown: bool,
    complete: bool,
    disposals: nat,        // full disposals finished
    mutex: Owner,
    caller: Caller)

  datatype Action =
    | Start(id: nat)
    | Count
    | Worker(id: nat)
    | CallerStep
    | SpuriousWakeup

  function Init(n: nat): (s: State) {
    State(seq(n, _ => NotStarted), 0, 0, false, false, false, 0, Free, Outside)
  }

  function Go(s: State, i: nat, p: Place): (s': State)
    requires i < |s.workers|
  {
    s.(workers := s.workers[i := p])
  }

  ghost predicate Started(s: State, i: nat) {
    i < |s.workers| && s.workers[i] != NotStarted
  }

  /** A worker that waits for the mutex can go on only when it is free. */
  ghost predicate WorkerEnabled(s: State, i: nat) {
    && i < |s.workers| && !s.workers[i].NotStarted? && !s.workers[i].Returned?
    && (s.workers[i].LockForSet? ==> s.mutex == Free)
  }

  function WorkerStep(s: State, i: nat): (s': State)
    requires i < |s.workers|
    ensures |s'.workers| == |s.workers|
  {
    match s.workers[i]
    case NotStarted => s
    case LoopTop => Go(s, i, if s.toShutdown then Subtract else TryCollector)
    case TryCollector => if s.active then Go(s, i, Working) else Go(s, i, Disposing).(active := true)
    case Disposing => Go(s, i, ClearCollector)
    case ClearCollector => Go(s, i, Working).(active := false)
    case Working => Go(s, i, LoopTop)
    case Subtract => Go(s, i, Load).(cont := (s.cont - 1) % COUNTER)
    case Load => Go(s, i, if s.cont == 0 then LockForSet else Notify)
    case LockForSet => Go(s, i, Setting).(mutex := ByWorker(i))
    case Setting => Go(s, i, DisposingAll).(complete := true)
    case DisposingAll => Go(s, i, Unlocking).(disposals := s.disposals + 1)
    case Unlocking => Go(s, i, Notify).(mutex := Free)
    case Notify => Go(s, i, Returned).(caller := if s.caller == Asleep then WantsMutex else s.caller)
    case Returned => s
  }

  /** Shutdown can be called only once the pool, and with it all its workers, exists. The test of
    * the flag and the going to sleep are separate steps under the mutex; going to sleep releases
    * it. */
  ghost predicate CallerEnabled(s: State) {
    match s.caller
    case Outside => s.counted == |s.workers|
    case WantsMutex => s.mutex == Free
    case Holds => true
    case SawIncomplete => true
    case Asleep => false
    case Done => true
  }

  function CallerNext(s: State): (s': State) {
    match s.caller
    case Outside => s.(toShutdown := true, caller := WantsMutex)
    case WantsMutex => s.(mutex := ByCaller, caller := Holds)
    case Holds => if s.complete then s.(mutex := Free, caller := Done) else s.(caller := SawIncomplete)
    case SawIncomplete => s.(mutex := Free, caller := Asleep)
    case Asleep => s
    case Done => s.(toShutdown := true, caller := WantsMutex)  // calling again
  }

  /** Threads are created and counted one after the other, a thread may run before it is counted. */
  ghost predicate Next(s: State, a: Action, s': State) {
    match a
    case Start(i) =>
      && i < |s.workers| && s.workers[i] == NotStarted && i == s.counted
      && s' == Go(s, i, LoopTop)
    case Count =>
      && Started(s, s.counted)
      && s' == s.(counted := s.counted + 1, cont := (s.cont + 1) % COUNTER)
    case Worker(i) => WorkerEnabled(s, i) && s' == WorkerStep(s, i)
    case CallerStep => CallerEnabled(s) && s' == CallerNext(s)
    case SpuriousWakeup => s.caller == Asleep && s' == s.(caller := WantsMutex)
  }

  ghost predicate OneStep(s: State, s': State) {
    exists a :: Next(s, a, s')
  }

  ghost predicate IsRun(n: nat, run: seq<State>) {
    && Configured(n).Some?
    && run != [] && run[0] == Init(n)
    && forall i, j | 0 <= i < |run| && j == i + 1 < |run| :: OneStep(run[i], run[j])
  }

  ghost predicate Reachable(n: nat, s: State) {
    exists run :: IsRun(n, run) && run[|run| - 1] == s
  }

  // ---- invariant ----

  predicate LeftLoop(p: Place) {
    p.Load? || p.LockForSet? || p.Setting? || p.DisposingAll? || p.Unlocking? || p.Notify? || p.Returned?
  }

  predicate AboutToComplete(p: Place) {
    p.Load? || p.LockForSet? || p.Setting?
  }

  predicate AboutToNotify(p: Place) {
    p.DisposingAll? || p.Unlocking? || p.Notify?
  }

  predicate HoldsMutex(p: Place) {
    p.Setting? || p.DisposingAll? || p.Unlocking?
  }

  predicate InCollector(p: Place) {
    p.Disposing? || p.ClearCollector?
  }

  /** How many workers have decremented the counter. */
  function Decremented(ws: seq<Place>): (n: nat)
    ensures n <= |ws|
  {
    if ws == [] then 0
    else Decremented(ws[..|ws| - 1]) + (if LeftLoop(ws[|ws| - 1]) then 1 else 0)
  }

  lemma {:induction false} DecrementedUpdate(ws: seq<Place>, i: nat, p: Place)
    requires i < |ws|
    ensures Decremented(ws[i := p])
         == Decremented(ws) - (if LeftLoop(ws[i]) then 1 else 0) + (if LeftLoop(p) then 1 else 0)
  {
    var k := |ws| - 1;
    if i == k {
      assert ws[i := p][..k] == ws[..k];
    } else {
      assert ws[i := p][..k] == ws[..k][i := p];
      DecrementedUpdate(ws[..k], i, p);
    }
  }

  lemma {:induction false} AllDecremented(ws: seq<Place>)
    ensures Decremented(ws) == |ws| <==> forall i | 0 <= i < |ws| :: LeftLoop(ws[i])
  {
    if ws != [] {
      AllDecremented(ws[..|ws| - 1]);
    }
  }

  lemma {:induction false} SomeDecremented(ws: seq<Place>, i: nat)
    requires i < |ws| && LeftLoop(ws[i])
    ensures Decremented(ws) > 0
  {
    if i < |ws| - 1 {
      SomeDecremented(ws[..|ws| - 1], i);
    }
  }

  /** Counting: who has been counted, who has decremented, and what the counter therefore says. */
  ghost predicate CounterInv(s: State) {
    && s.counted <= |s.workers|
    && s.cont == (s.counted - Decremented(s.workers)) % COUNTER
    && (forall i | 0 <= i < |s.workers| :: i < s.counted ==> s.workers[i] != NotStarted)
    && (s.toShutdown ==> s.counted == |s.workers|)
    && (!s.toShutdown ==> forall i | 0 <= i < |s.workers| :: !LeftLoop(s.workers[i]) && s.workers[i] != Subtract)
    && (s.caller.Outside? <==> !s.toShutdown)
  }

  /** Exclusion: the mutex and the collector's flag. */
  ghost predicate LockInv(s: State) {
    && (forall i | 0 <= i < |s.workers| :: HoldsMutex(s.workers[i]) <==> s.mutex == ByWorker(i))
    && (s.caller.Holds? || s.caller.SawIncomplete? <==> s.mutex == ByCaller)
    && (s.mutex.ByWorker? ==> s.mutex.id < |s.workers|)
    && (forall i, j | 0 <= i < j < |s.workers| :: !(InCollector(s.workers[i]) && InCollector(s.workers[j])))
    && (forall i | 0 <= i < |s.workers| :: InCollector(s.workers[i]) ==> s.active)
  }

  ghost predicate AllLeft(s: State) {
    forall j | 0 <= j < |s.workers| :: LeftLoop(s.workers[j])
  }

  /** Completion: it is declared only when every worker has left its loop, and once they all have,
    * it is declared or somebody is on the way to declare it. A sleeping caller that could go will
    * still be notified. */
  ghost predicate CompletionInv(s: State) {
    && (s.complete ==> AllLeft(s))
    && (forall i | 0 <= i < |s.workers| ::
          s.workers[i].LockForSet? || HoldsMutex(s.workers[i]) ==> AllLeft(s))
    && (|s.workers| > 0 && AllLeft(s) ==>
          s.complete || exists i | 0 <= i < |s.workers| :: AboutToComplete(s.workers[i]))
    && (s.caller.SawIncomplete? ==> !s.complete)
    && (s.caller.Asleep? && s.complete ==>
          exists i | 0 <= i < |s.workers| :: AboutToNotify(s.workers[i]))
  }

  ghost predicate Inv(s: State) {
    CounterInv(s) && LockInv(s) && CompletionInv(s)
  }

  lemma ModularStep(d: int)
    ensures (d % COUNTER - 1) % COUNTER == (d - 1) % COUNTER
    ensures (d % COUNTER + 1) % COUNTER == (d + 1) % COUNTER
  {
  }

  lemma QuietKeepsCounter(s: State, i: nat, s': State)
    requires CounterInv(s) && i < |s.workers| == |s'.workers|
    requires s'.workers == s.workers[i := s'.workers[i]]
    requires LeftLoop(s'.workers[i]) == LeftLoop(s.workers[i])
    requires s'.workers[i] == Subtract ==> s.toShutdown
    requires s'.workers[i] == NotStarted ==> s.workers[i] == NotStarted
    requires s'.counted == s.counted && s'.cont == s.cont && s'.toShutdown == s.toShutdown
    requires s'.caller.Outside? == s.caller.Outside?
    ensures CounterInv(s')
  {
    DecrementedUpdate(s.workers, i, s'.workers[i]);
  }

  lemma SubtractKeepsCounter(s: State, i: nat)
    requires CounterInv(s) && i < |s.workers| && s.workers[i].Subtract?
    ensures CounterInv(WorkerStep(s, i))
  {
    DecrementedUpdate(s.workers, i, Load);
    ModularStep(s.counted - Decremented(s.workers));
  }

  lemma WorkerKeepsCounter(s: State, i: nat)
    requires CounterInv(s) && WorkerEnabled(s, i)
    ensures CounterInv(WorkerStep(s, i))
  {
    if s.workers[i].Subtract? {
      SubtractKeepsCounter(s, i);
    } else {
      QuietKeepsCounter(s, i, WorkerStep(s, i));
    }
  }

  /** A step that takes or gives up neither the mutex nor the collector. */
  lemma QuietKeepsLock(s: State, i: nat, s': State)
    requires LockInv(s) && i < |s.workers| == |s'.workers|
    requires s'.workers == s.workers[i := s'.workers[i]]
    requires HoldsMutex(s'.workers[i]) == HoldsMutex(s.workers[i])
    requires InCollector(s'.workers[i]) == InCollector(s.workers[i])
    requires s'.mutex == s.mutex && s'.active == s.active
    requires s'.caller == s.caller || (s.caller.Asleep? && s'.caller.WantsMutex?)
    ensures LockInv(s')
  {
  }

  lemma CollectorKeepsLock(s: State, i: nat)
    requires LockInv(s) && i < |s.workers|
    requires (s.workers[i].TryCollector? && !s.active) || s.workers[i].ClearCollector?
    ensures LockInv(WorkerStep(s, i))
  {
  }

  lemma MutexKeepsLock(s: State, i: nat)
    requires LockInv(s) && i < |s.workers|
    requires (s.workers[i].LockForSet? && s.mutex == Free) || s.workers[i].Unlocking?
    ensures LockInv(WorkerStep(s, i))
  {
  }

  lemma WorkerKeepsLock(s: State, i: nat)
    requires LockInv(s) && WorkerEnabled(s, i)
    ensures LockInv(WorkerStep(s, i))
  {
    var s' := WorkerStep(s, i);
    match s.workers[i]
    case TryCollector =>
      if s.active {
        QuietKeepsLock(s, i, s');
      } else {
        CollectorKeepsLock(s, i);
      }
    case ClearCollector => CollectorKeepsLock(s, i);
    case LockForSet => MutexKeepsLock(s, i);
    case Unlocking => MutexKeepsLock(s, i);
    case _ => QuietKeepsLock(s, i, s');
  }

  /** The last worker to decrement is the one that reads zero. */
  lemma ZeroMeansEverybody(s: State, i: nat)
    requires CounterInv(s) && i < |s.workers| < COUNTER && s.workers[i].Load? && s.cont == 0
    ensures AllLeft(s)
  {
    SomeDecremented(s.workers, i);
    AllDecremented(s.workers);
  }

  lemma EverybodyMeansZero(s: State)
    requires CounterInv(s) && |s.workers| > 0
    requires AllLeft(s)
    ensures s.cont == 0
  {
    AllDecremented(s.workers);
    assert LeftLoop(s.workers[0]);
  }

  /** A step that neither decrements, nor decides on the counter, nor completes, nor notifies. */
  lemma QuietKeepsCompletion(s: State, i: nat, s': State)
    requires CompletionInv(s) && i < |s.workers| == |s'.workers|
    requires s'.workers == s.workers[i := s'.workers[i]]
    requires LeftLoop(s'.workers[i]) == LeftLoop(s.workers[i])
    requires AboutToComplete(s'.workers[i]) == AboutToComplete(s.workers[i])
    requires AboutToNotify(s'.workers[i]) == AboutToNotify(s.workers[i])
    requires s'.workers[i].LockForSet? || HoldsMutex(s'.workers[i]) ==>
               s.workers[i].LockForSet? || HoldsMutex(s.workers[i])
    requires s'.complete == s.complete && s'.caller == s.caller
    ensures CompletionInv(s')
  {
    SameLeft(s, i, s');
    if exists j | 0 <= j < |s.workers| :: AboutToComplete(s.workers[j]) {
      var k :| 0 <= k < |s.workers| && AboutToComplete(s.workers[k]);
      assert AboutToComplete(s'.workers[k]);
    }
    if exists j | 0 <= j < |s.workers| :: AboutToNotify(s.workers[j]) {
      var k :| 0 <= k < |s.workers| && AboutToNotify(s.workers[k]);
      assert AboutToNotify(s'.workers[k]);
    }
  }

  lemma SubtractKeepsCompletion(s: State, i: nat)
    requires CompletionInv(s) && i < |s.workers| && s.workers[i].Subtract?
    ensures CompletionInv(WorkerStep(s, i))
  {
    var s' := WorkerStep(s, i);
    assert !LeftLoop(s.workers[i]);
    assert AboutToComplete(s'.workers[i]);
    assert forall j | 0 <= j < |s.workers| && j != i :: s'.workers[j] == s.workers[j];
  }

  lemma SameLeft(s: State, i: nat, s': State)
    requires i < |s.workers| == |s'.workers| && s'.workers == s.workers[i := s'.workers[i]]
    requires LeftLoop(s'.workers[i]) == LeftLoop(s.workers[i])
    ensures AllLeft(s') <==> AllLeft(s)
  {
    assert forall j | 0 <= j < |s.workers| :: LeftLoop(s'.workers[j]) == LeftLoop(s.workers[j]);
  }

  lemma LoadKeepsCompletion(s: State, i: nat)
    requires CounterInv(s) && CompletionInv(s) && i < |s.workers| < COUNTER && s.workers[i].Load?
    ensures CompletionInv(WorkerStep(s, i))
  {
    var s' := WorkerStep(s, i);
    SameLeft(s, i, s');
    if s.cont == 0 {
      ZeroMeansEverybody(s, i);
      assert AllLeft(s) && AboutToComplete(s'.workers[i]);
      if exists j | 0 <= j < |s.workers| :: AboutToNotify(s.workers[j]) {
        var k :| 0 <= k < |s.workers| && AboutToNotify(s.workers[k]);
        assert AboutToNotify(s'.workers[k]);
      }
    } else {
      if AllLeft(s) {
        EverybodyMeansZero(s);
      }
      assert !s.complete;
    }
  }

  lemma SettingKeepsCompletion(s: State, i: nat)
    requires CompletionInv(s) && i < |s.workers| && s.workers[i].Setting? && !s.caller.SawIncomplete?
    ensures CompletionInv(WorkerStep(s, i))
  {
    var s' := WorkerStep(s, i);
    SameLeft(s, i, s');
    assert HoldsMutex(s.workers[i]) && AllLeft(s);
    assert AboutToNotify(s'.workers[i]);
  }

  lemma NotifyKeepsCompletion(s: State, i: nat)
    requires CompletionInv(s) && i < |s.workers| && s.workers[i].Notify?
    ensures CompletionInv(WorkerStep(s, i))
  {
    var s' := WorkerStep(s, i);
    SameLeft(s, i, s');
    if exists j | 0 <= j < |s.workers| :: AboutToComplete(s.workers[j]) {
      var k :| 0 <= k < |s.workers| && AboutToComplete(s.workers[k]);
      assert AboutToComplete(s'.workers[k]);
    }
  }

  lemma WorkerKeepsCompletion(s: State, i: nat)
    requires Inv(s) && |s.workers| < COUNTER && WorkerEnabled(s, i)
    ensures CompletionInv(WorkerStep(s, i))
  {
    var s' := WorkerStep(s, i);
    match s.workers[i]
    case Subtract => SubtractKeepsCompletion(s, i);
    case Load => LoadKeepsCompletion(s, i);
    case Setting =>
      assert HoldsMutex(s.workers[i]);
      SettingKeepsCompletion(s, i);
    case Notify => NotifyKeepsCompletion(s, i);
    case _ => QuietKeepsCompletion(s, i, s');
  }

  ghost predicate CallerMoves(s: State, s': State) {
    (CallerEnabled(s) && s' == CallerNext(s)) || (s.caller == Asleep && s' == s.(caller := WantsMutex))
  }

  lemma CallerKeepsLock(s: State, s': State)
    requires LockInv(s) && CallerMoves(s, s')
    ensures LockInv(s')
  {
    assert s'.workers == s.workers;
  }

  lemma CallerKeepsCompletion(s: State, s': State)
    requires CompletionInv(s) && CallerMoves(s, s')
    ensures CompletionInv(s')
  {
    assert s'.workers == s.workers && s'.complete == s.complete;
    assert s'.caller.Asleep? ==> s.caller.SawIncomplete?;
  }

  lemma CallerKeepsInv(s: State, s': State)
    requires Inv(s) && CallerMoves(s, s')
    ensures Inv(s')
  {
    CallerKeepsLock(s, s');
    CallerKeepsCompletion(s, s');
  }

  lemma StartKeepsInv(s: State, i: nat)
    requires Inv(s) && i < |s.workers| && s.workers[i] == NotStarted && i == s.counted
    ensures Inv(Go(s, i, LoopTop))
  {
    var s' := Go(s, i, LoopTop);
    QuietKeepsCounter(s, i, s');
    QuietKeepsLock(s, i, s');
    QuietKeepsCompletion(s, i, s');
  }

  lemma CountKeepsInv(s: State)
    requires Inv(s) && Started(s, s.counted)
    ensures Inv(s.(counted := s.counted + 1, cont := (s.cont + 1) % COUNTER))
  {
    ModularStep(s.counted - Decremented(s.workers));
    QuietKeepsLock(s, s.counted, s.(counted := s.counted + 1, cont := (s.cont + 1) % COUNTER));
    QuietKeepsCompletion(s, s.counted, s.(counted := s.counted + 1, cont := (s.cont + 1) % COUNTER));
  }

  lemma WorkerKeepsInv(s: State, i: nat, s': State)
    requires Inv(s) && |s.workers| < COUNTER && WorkerEnabled(s, i) && s' == WorkerStep(s, i)
    ensures Inv(s')
  {
    assert CounterInv(s') by { WorkerKeepsCounter(s, i); }
    assert LockInv(s') by { WorkerKeepsLock(s, i); }
    assert CompletionInv(s') by { WorkerKeepsCompletion(s, i); }
  }

  lemma ActionKeepsInv(s: State, a: Action, s': State)
    requires Inv(s) && |s.workers| < COUNTER && Next(s, a, s')
    ensures Inv(s')
  {
    match a
    case Worker(i) => WorkerKeepsInv(s, i, s');
    case Start(i) => StartKeepsInv(s, i);
    case Count => CountKeepsInv(s);
    case CallerStep => CallerKeepsInv(s, s');
    case SpuriousWakeup => CallerKeepsInv(s, s');
  }

  lemma StepKeepsInv(s: State, s': State)
    requires Inv(s) && |s.workers| < COUNTER && OneStep(s, s')
    ensures Inv(s') && |s'.workers| == |s.workers|
  {
    var a :| Next(s, a, s');
    ActionKeepsInv(s, a, s');
  }

  lemma {:induction false} NobodyDecremented(n: nat)
    ensures Decremented(Init(n).workers) == 0
  {
    if n > 0 {
      assert Init(n).workers[..n - 1] == Init(n - 1).workers;
      NobodyDecremented(n - 1);
    }
  }

  lemma {:induction false} RunKeepsInv(n: nat, run: seq<State>)
    requires n < COUNTER && IsRun(n, run)
    ensures var s := run[|run| - 1]; Inv(s) && |s.workers| == n
    decreases |run|
  {
    if |run| == 1 {
      NobodyDecremented(n);
      var s := Init(n);
      assert !LeftLoop(s.workers[0]);
    } else {
      var shorter := run[..|run| - 1];
      RunKeepsInv(n, shorter);
      assert OneStep(run[|run| - 2], run[|run| - 1]);
      StepKeepsInv(run[|run| - 2], run[|run| - 1]);
    }
  }

  // ---- the full disposal ----

  ghost predicate SomebodyDisposes(s: State) {
    exists i :: 0 <= i < |s.workers| && s.workers[i].DisposingAll?
  }

  /** Once completion is declared the full disposal is done or under way, and a caller that has returned
    * has waited for one. */
  ghost predicate DisposalInv(s: State) {
    && (s.complete ==> s.disposals > 0 || SomebodyDisposes(s))
    && (s.caller.Done? ==> s.disposals > 0)
  }

  lemma WorkerKeepsDisposal(s: State, i: nat)
    requires DisposalInv(s) && WorkerEnabled(s, i)
    ensures DisposalInv(WorkerStep(s, i))
  {
    var s' := WorkerStep(s, i);
    if s.workers[i].Setting? {
      assert s'.workers[i].DisposingAll?;
    } else if !s.workers[i].DisposingAll? && SomebodyDisposes(s) {
      var k :| 0 <= k < |s.workers| && s.workers[k].DisposingAll?;
      assert s'.workers[k].DisposingAll?;
    }
  }

  lemma ActionKeepsDisposal(s: State, a: Action, s': State)
    requires LockInv(s) && DisposalInv(s) && Next(s, a, s')
    ensures DisposalInv(s')
  {
    match a
    case Worker(i) => WorkerKeepsDisposal(s, i);
    case Start(i) =>
      if SomebodyDisposes(s) {
        var k :| 0 <= k < |s.workers| && s.workers[k].DisposingAll?;
        assert s'.workers[k].DisposingAll?;
      }
    case CallerStep =>
      assert s.caller.Holds? ==> !SomebodyDisposes(s) by {
        assert forall i | 0 <= i < |s.workers| && s.workers[i].DisposingAll? :: HoldsMutex(s.workers[i]);
      }
      assert s'.workers == s.workers;
    case _ => assert s'.workers == s.workers;
  }

  lemma {:induction false} RunKeepsDisposal(n: nat, run: seq<State>)
    requires n < COUNTER && IsRun(n, run)
    ensures DisposalInv(run[|run| - 1])
    decreases |run|
  {
    if |run| > 1 {
      var shorter := run[..|run| - 1];
      RunKeepsInv(n, shorter);
      RunKeepsDisposal(n, shorter);
      assert OneStep(run[|run| - 2], run[|run| - 1]);
      var a :| Next(run[|run| - 2], a, run[|run| - 1]);
      ActionKeepsDisposal(run[|run| - 2], a, run[|run| - 1]);
    }
  }

  // ---- main results ----

  /** For fewer than 65536 workers and every interleaving:
    * completion is declared only after every worker has decremented the counter and left its loop;
    * at most one thread is inside the collector's disposals, although the full disposal does not
    * take the collector's flag;
    * once every worker has returned, completion is declared and the caller is not asleep: it is done,
    * or about to test the flag, or about to take a mutex that is free;
    * when the caller has returned, and when every worker has, a full disposal has been finished. */
  lemma ShutdownIsSafe(n: nat, s: State)
    requires n < COUNTER && Reachable(n, s)
    ensures |s.workers| == n
    ensures s.complete ==> forall i | 0 <= i < n :: LeftLoop(s.workers[i])
    ensures forall i, j | 0 <= i < j < n :: !(Disposes(s.workers[i]) && Disposes(s.workers[j]))
    ensures (forall i | 0 <= i < n :: s.workers[i].Returned?) ==>
              s.complete && (s.caller.Done? || s.caller.Holds? || (s.caller.WantsMutex? && s.mutex == Free))
    ensures s.caller.Done? || (forall i | 0 <= i < n :: s.workers[i].Returned?) ==> s.disposals > 0
  {
    var run :| IsRun(n, run) && run[|run| - 1] == s;
    RunKeepsInv(n, run);
    RunKeepsDisposal(n, run);
    if forall i | 0 <= i < n :: s.workers[i].Returned? {
      assert LeftLoop(s.workers[0]) && AllLeft(s);
    }
  }

  predicate Disposes(p: Place) {
    p.Disposing? || p.DisposingAll?
  }

  // ---- more workers than the counter can count ----

  lemma ReachableStep(n: nat, s: State, a: Action, s': State)
    requires Reachable(n, s) && Next(s, a, s')
    ensures Reachable(n, s')
  {
    var run :| IsRun(n, run) && run[|run| - 1] == s;
    var longer := run + [s'];
    assert OneStep(s, s');
    assert forall i, j | 0 <= i < |longer| && j == i + 1 < |longer| :: OneStep(longer[i], longer[j]) by {
      assert forall i | 0 <= i < |run| :: longer[i] == run[i];
    }
    assert IsRun(n, longer) && longer[|longer| - 1] == s';
  }

  lemma WorkerReaches(n: nat, s: State, i: nat)
    requires Reachable(n, s) && WorkerEnabled(s, i)
    ensures Reachable(n, WorkerStep(s, i))
  {
    ReachableStep(n, s, Worker(i), WorkerStep(s, i));
  }

  /** The first `k` workers are in their loops and counted. */
  function Created(n: nat, k: nat): (s: State)
  {
    Init(n).(workers := seq(n, i => if i < k then LoopTop else NotStarted), counted := k, cont := k % COUNTER)
  }

  lemma {:induction false} CreatedReachable(n: nat, k: nat)
    requires k <= n && n % COUNTER != 0
    ensures Reachable(n, Created(n, k))
  {
    if k == 0 {
      assert Created(n, 0) == Init(n);
      assert IsRun(n, [Init(n)]);
    } else {
      CreatedReachable(n, k - 1);
      var s := Created(n, k - 1);
      var started := Go(s, k - 1, LoopTop);
      ReachableStep(n, s, Start(k - 1), started);
      ModularStep(k - 1);
      assert started.(counted := k, cont := (s.cont + 1) % COUNTER) == Created(n, k);
      ReachableStep(n, started, Count, Created(n, k));
    }
  }

  /** Shutdown has been requested and the first `k` workers have decremented the counter. */
  function Draining(n: nat, k: nat): (s: State)
  {
    Created(n, n).(workers := seq(n, i => if i < k then Load else LoopTop), cont := (n - k) % COUNTER,
                   toShutdown := true, caller := WantsMutex)
  }

  lemma DrainOne(n: nat, k: nat)
    requires 0 < k <= n
    ensures var s := WorkerStep(Draining(n, k - 1), k - 1);
            s.workers[k - 1] == Subtract && WorkerStep(s, k - 1) == Draining(n, k)
  {
    var s := WorkerStep(Draining(n, k - 1), k - 1);
    ModularStep(n - k + 1);
    assert WorkerStep(s, k - 1).workers == Draining(n, k).workers;
  }

  lemma {:induction false} DrainingReachable(n: nat, k: nat)
    requires k <= n && n % COUNTER != 0
    ensures Reachable(n, Draining(n, k))
  {
    if k == 0 {
      CreatedReachable(n, n);
      assert Draining(n, 0).workers == Created(n, n).workers;
      ReachableStep(n, Created(n, n), CallerStep, Draining(n, 0));
    } else {
      DrainingReachable(n, k - 1);
      DrainOne(n, k);
      WorkerReaches(n, Draining(n, k - 1), k - 1);
      WorkerReaches(n, WorkerStep(Draining(n, k - 1), k - 1), k - 1);
    }
  }

  /** With more workers than the counter can count, completion can be declared while a worker is
    * still in its loop: the counter runs through zero early. */
  lemma OverflowDeclaresTooEarly(n: nat) returns (s: State, i: nat)
    requires n > COUNTER && n % COUNTER != 0
    ensures Reachable(n, s) && s.complete && i < n == |s.workers| && s.workers[i] == LoopTop
  {
    var k := n % COUNTER;
    MultipleLeft(n);
    DrainingReachable(n, k);
    s := Declares(n, Draining(n, k), k - 1);
    i := k;
  }

  lemma MultipleLeft(n: nat)
    ensures (n - n % COUNTER) % COUNTER == 0
  {
  }

  /** A worker that reads zero declares completion in three steps. */
  lemma Declares(n: nat, s: State, i: nat) returns (s': State)
    requires Reachable(n, s) && i < |s.workers| && s.workers[i].Load? && s.cont == 0 && s.mutex == Free
    ensures Reachable(n, s') && s'.complete && s'.workers == s.workers[i := DisposingAll]
  {
    var s1 := WorkerStep(s, i);
    WorkerReaches(n, s, i);
    var s2 := WorkerStep(s1, i);
    WorkerReaches(n, s1, i);
    s' := WorkerStep(s2, i);
    WorkerReaches(n, s2, i);
    assert s'.workers == s.workers[i := DisposingAll];
  }

  /** The pool exists with `n` workers exactly when the stored processor count is not zero. */
  lemma PoolExistsIff(n: nat)
    ensures (exists s :: Reachable(n, s)) <==> n % COUNTER != 0
  {
    if n % COUNTER != 0 {
      CreatedReachable(n, 0);
    }
  }

  /** Of the pools that can be built, those in which completion is trustworthy are exactly those whose
    * number of workers fits the counter. */
  lemma CompletionSoundIff(n: nat)
    requires n % COUNTER != 0
    ensures (forall s | Reachable(n, s) :: s.complete ==> AllLeft(s)) <==> n < COUNTER
  {
    if n < COUNTER {
      forall s | Reachable(n, s)
        ensures s.complete ==> AllLeft(s)
      {
        ShutdownIsSafe(n, s);
      }
    } else {
      var s, i := OverflowDeclaresTooEarly(n);
      assert !LeftLoop(s.workers[i]);
    }
  }

  /** Workers do enter the bounded disposal: the exclusion is not an empty promise. */
  lemma DisposalHappens(n: nat) returns (s: State)
    requires n % COUNTER != 0
    ensures Reachable(n, s) && |s.workers| == n && s.workers[0].Disposing? && s.active
  {
    CreatedReachable(n, n);
    var s0 := Created(n, n);
    var s1 := WorkerStep(s0, 0);
    WorkerReaches(n, s0, 0);
    s := WorkerStep(s1, 0);
    WorkerReaches(n, s1, 0);
  }

  // ---- progress ----

  /** How many steps a worker has at most before it, once shutdown is requested. */
  function StepsLeft(p: Place): (n: nat) {
    match p
    case NotStarted => 13
    case TryCollector => 12
    case Disposing => 11
    case ClearCollector => 10
    case Working => 9
    case LoopTop => 8
    case Subtract => 7
    case Load => 6
    case LockForSet => 5
    case Setting => 4
    case DisposingAll => 3
    case Unlocking => 2
    case Notify => 1
    case Returned => 0
  }

  function CallerLeft(c: Caller): (n: nat) {
    match c
    case Outside => 5
    case WantsMutex => 4
    case Holds => 3
    case SawIncomplete => 2
    case Asleep => 1
    case Done => 0
  }

  function AllStepsLeft(ws: seq<Place>): (n: nat) {
    if ws == [] then 0 else AllStepsLeft(ws[..|ws| - 1]) + StepsLeft(ws[|ws| - 1])
  }

  /** A notification may send the caller back by three steps. */
  function Distance(s: State): (n: nat) {
    4 * AllStepsLeft(s.workers) + CallerLeft(s.caller)
  }

  lemma {:induction false} StepsLeftUpdate(ws: seq<Place>, i: nat, p: Place)
    requires i < |ws|
    ensures AllStepsLeft(ws[i := p]) == AllStepsLeft(ws) - StepsLeft(ws[i]) + StepsLeft(p)
  {
    var k := |ws| - 1;
    if i == k {
      assert ws[i := p][..k] == ws[..k];
    } else {
      assert ws[i := p][..k] == ws[..k][i := p];
      StepsLeftUpdate(ws[..k], i, p);
    }
  }

  /** Shutdown has been requested and its caller has not returned. */
  ghost predicate Waiting(s: State) {
    s.toShutdown && !s.caller.Done?
  }

  lemma WorkerGoesOn(s: State, i: nat)
    requires s.toShutdown && WorkerEnabled(s, i)
    ensures WorkerStep(s, i).workers == s.workers[i := WorkerStep(s, i).workers[i]]
    ensures StepsLeft(WorkerStep(s, i).workers[i]) < StepsLeft(s.workers[i])
  {
  }

  lemma WorkerLeavesCaller(s: State, i: nat)
    requires WorkerEnabled(s, i)
    ensures var s' := WorkerStep(s, i);
            s'.toShutdown == s.toShutdown && CallerLeft(s'.caller) <= CallerLeft(s.caller) + 3
  {
  }

  /** After the request every step but a spurious wake-up brings the end nearer. */
  lemma StepComesNearer(s: State, a: Action, s': State)
    requires CounterInv(s) && Waiting(s) && Next(s, a, s') && !a.SpuriousWakeup?
    ensures Distance(s') < Distance(s) && s'.toShutdown
  {
    match a
    case Worker(i) =>
      WorkerGoesOn(s, i);
      WorkerLeavesCaller(s, i);
      StepsLeftUpdate(s.workers, i, s'.workers[i]);
    case CallerStep => assert s'.workers == s.workers;
    case _ =>
  }

  /** And there is always such a step. */
  lemma SomeStepIsEnabled(n: nat, s: State) returns (a: Action, s': State)
    requires n < COUNTER && Reachable(n, s) && Waiting(s)
    ensures Next(s, a, s') && !a.SpuriousWakeup?
  {
    ShutdownIsSafe(n, s);
    var run :| IsRun(n, run) && run[|run| - 1] == s;
    RunKeepsInv(n, run);
    if CallerEnabled(s) {
      a, s' := CallerStep, CallerNext(s);
    } else if s.mutex.ByWorker? {
      a, s' := Worker(s.mutex.id), WorkerStep(s, s.mutex.id);
    } else {
      assert s.mutex == Free;
      var i :| 0 <= i < n && !s.workers[i].Returned?;
      assert i < s.counted;
      a, s' := Worker(i), WorkerStep(s, i);
    }
  }

  /** A stretch of a run after the request, without spurious wake-ups, during which the caller has not
    * returned. */
  ghost predicate IsWait(path: seq<State>) {
    && path != []
    && (forall i | 0 <= i < |path| :: Waiting(path[i]))
    && (forall i, j | 0 <= i < |path| && j == i + 1 < |path| ::
          exists a :: Next(path[i], a, path[j]) && !a.SpuriousWakeup?)
  }

  /** A shutdown ends: from any state reached after the request, in which some step is always possible,
    * the caller returns within a bounded number of steps, whatever their order, apart from spurious
    * wake-ups. */
  lemma {:induction false} ShutdownEnds(n: nat, path: seq<State>) returns (a: Action, s': State)
    requires n < COUNTER && IsWait(path) && Reachable(n, path[0])
    ensures |path| - 1 + Distance(path[|path| - 1]) <= Distance(path[0])
    ensures Reachable(n, path[|path| - 1])
    ensures Next(path[|path| - 1], a, s') && !a.SpuriousWakeup?
    decreases |path|
  {
    var k := |path| - 1;
    if k > 0 {
      a, s' := ShutdownEnds(n, path[..k]);
      a :| Next(path[k - 1], a, path[k]) && !a.SpuriousWakeup?;
      var run :| IsRun(n, run) && run[|run| - 1] == path[k - 1];
      RunKeepsInv(n, run);
      StepComesNearer(path[k - 1], a, path[k]);
      ReachableStep(n, path[k - 1], a, path[k]);
    }
    a, s' := SomeStepIsEnabled(n, path[k]);
  }
}
