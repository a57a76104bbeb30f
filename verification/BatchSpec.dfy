/** What a batching queue holds and does, apart from how its wrappers are laid out in memory.
  * Two descriptions are given: `Batching`, which keeps the batch boundaries and the limits as
  * they are stored, and `Flat`, the plain FIFO a user has in mind. */
module BatchSpec {
  import opened Sequences

  const TWO63: int := 0x8000_0000_0000_0000
  const TWO64: int := 0x1_0000_0000_0000_0000

  type uint64 = n: int | 0 <= n < TWO64
  type int64 = n: int | -TWO63 <= n < TWO63

  /** Conversion to a signed 64-bit integer, as the limits are stored. */
  function Signed(u: uint64): (i: int64)
  {
    if u < TWO63 then u else u - TWO64
  }

  /** Conversion of a stored limit back to unsigned, as every comparison converts it. */
  function Unsigned(i: int64): (u: uint64)
  {
    if i < 0 then i + TWO64 else i
  }

  datatype Batching<T> = Batching(
    batches: seq<seq<T>>,   // front batch possibly half consumed
    candidate: seq<T>,      // the batch being accumulated
    lower: int64,
    upper: int64,
    paused: bool)

  datatype Op<T> =
    | Cast(item: T)
    | AddToBatch(item: T, present: bool)
    | Commit(force: bool)
    | ResetBatch
    | Pull
    | Purge
    | Reset
    | SetUpper(limit: uint64)
    | SetLower(limit: uint64)
    | Pause
    | Resume

  datatype Out<T> = Done | Answer(ok: bool) | Got(item: T) | Missed

  function Empty<T>(): (s: Batching<T>) {
    Batching([], [], 0, Signed(TWO64 - 1), false)
  }

  function CommitBatch<T>(s: Batching<T>, force: bool): (r: (Batching<T>, bool)) {
    if !force && (Unsigned(s.lower) > |s.candidate| || Unsigned(s.upper) < |s.candidate|) then
      (s, false)
    else if |s.candidate| > 0 then
      (s.(batches := s.batches + [s.candidate], candidate := []), true)
    else
      (s, false)
  }

  function Step<T>(s: Batching<T>, op: Op<T>): (r: (Batching<T>, Out<T>)) {
    match op
    case Cast(x) => (s.(batches := s.batches + [[x]]), Answer(true))
    case AddToBatch(x, present) =>
      if present then (s.(candidate := s.candidate + [x]), Answer(true)) else (s, Answer(false))
    case Commit(force) => var (s', ok) := CommitBatch(s, force); (s', Answer(ok))
    case ResetBatch => (s.(candidate := []), Answer(s.candidate != []))
    case Pull =>
      if s.paused || TotalSize(s.batches) == 0 || s.batches == [] || s.batches[0] == [] then (s, Missed)
      else (s.(batches := WithoutFirst(s.batches)), Got(s.batches[0][0]))
    case Purge => (s.(batches := []), Done)
    case Reset => (Empty(), Done)
    case SetUpper(limit) =>
      if limit < Unsigned(s.lower) then (s, Answer(false)) else (s.(upper := Signed(limit)), Answer(true))
    case SetLower(limit) =>
      if limit > Unsigned(s.upper) then (s, Answer(false)) else (s.(lower := Signed(limit)), Answer(true))
    case Pause => (s.(paused := true), Done)
    case Resume => (s.(paused := false), Done)
  }

  /** The final state of a run and everything it answered, in order. */
  function Run<T>(s: Batching<T>, ops: seq<Op<T>>): (r: (Batching<T>, seq<Out<T>>))
    decreases ops
  {
    if ops == [] then (s, [])
    else
      var (s1, o) := Step(s, ops[0]);
      var (s2, os) := Run(s1, ops[1..]);
      (s2, [o] + os)
  }

  ghost predicate WellFormed<T>(s: Batching<T>) {
    && AllNonEmpty(s.batches)
    && Unsigned(s.lower) <= Unsigned(s.upper)
  }

  // ---- the plain FIFO ----

  /** A flat queue with ordinary natural-number limits. */
  datatype Flat<T> = Flat(queue: seq<T>, candidate: seq<T>, low: nat, high: nat, paused: bool)

  function FlatOf<T>(s: Batching<T>): (f: Flat<T>) {
    Flat(Flatten(s.batches), s.candidate, Unsigned(s.lower), Unsigned(s.upper), s.paused)
  }

  function FlatStep<T>(f: Flat<T>, op: Op<T>): (r: (Flat<T>, Out<T>)) {
    match op
    case Cast(x) => (f.(queue := f.queue + [x]), Answer(true))
    case AddToBatch(x, present) =>
      (if present then f.(candidate := f.candidate + [x]) else f, Answer(present))
    case Commit(force) =>
      if 0 < |f.candidate| && (force || f.low <= |f.candidate| <= f.high)
      then (f.(queue := f.queue + f.candidate, candidate := []), Answer(true))
      else (f, Answer(false))
    case ResetBatch => (f.(candidate := []), Answer(f.candidate != []))
    case Pull =>
      if !f.paused && f.queue != [] then (f.(queue := f.queue[1..]), Got(f.queue[0])) else (f, Missed)
    case Purge => (f.(queue := []), Done)
    case Reset => (Flat([], [], 0, TWO64 - 1, false), Done)
    case SetUpper(limit) => if f.low <= limit then (f.(high := limit), Answer(true)) else (f, Answer(false))
    case SetLower(limit) => if limit <= f.high then (f.(low := limit), Answer(true)) else (f, Answer(false))
    case Pause => (f.(paused := true), Done)
    case Resume => (f.(paused := false), Done)
  }

  function FlatRun<T>(f: Flat<T>, ops: seq<Op<T>>): (r: (Flat<T>, seq<Out<T>>))
    decreases ops
  {
    if ops == [] then (f, [])
    else
      var (f1, o) := FlatStep(f, ops[0]);
      var (f2, os) := FlatRun(f1, ops[1..]);
      (f2, [o] + os)
  }

  lemma PullFront<T>(batches: seq<seq<T>>)
    requires batches != [] && batches[0] != []
    ensures Flatten(batches) == [batches[0][0]] + Flatten(WithoutFirst(batches))
    ensures AllNonEmpty(batches) ==> AllNonEmpty(WithoutFirst(batches))
  {
    var b, later := batches[0], Flatten(batches[1..]);
    if |b| == 1 {
      assert b == [b[0]];
    } else {
      assert WithoutFirst(batches)[1..] == batches[1..];
      FirstOf(b, later);
    }
  }

  lemma FirstOf<T>(b: seq<T>, later: seq<T>)
    requires b != []
    ensures b + later == [b[0]] + (b[1..] + later)
  {
  }

  lemma EmptyOrNot<T>(batches: seq<seq<T>>)
    requires AllNonEmpty(batches)
    ensures batches == [] <==> TotalSize(batches) == 0
    ensures TotalSize(batches) == |Flatten(batches)|
  {
    FlattenSize(batches);
  }

  lemma StepRefinesFlat<T>(s: Batching<T>, op: Op<T>)
    requires WellFormed(s)
    ensures WellFormed(Step(s, op).0)
    ensures FlatStep(FlatOf(s), op) == (FlatOf(Step(s, op).0), Step(s, op).1)
  {
    EmptyOrNot(s.batches);
    match op
    case Cast(x) =>
      FlattenAppend(s.batches, [[x]]);
      FlattenOne([x]);
    case Commit(force) =>
      FlattenAppend(s.batches, [s.candidate]);
      FlattenOne(s.candidate);
    case Pull =>
      if s.batches != [] {
        PullFront(s.batches);
      }
    case _ =>
  }

  /** Whatever is done to a queue, in whatever order: the state stays well formed (no empty batch
    * is queued, and the lower limit does not exceed the upper one although the default upper
    * limit is stored as -1), and the queue answers exactly as the flat FIFO with
    * natural-number limits does. */
  lemma {:induction false} RunRefinesFlat<T>(s: Batching<T>, ops: seq<Op<T>>)
    requires WellFormed(s)
    ensures WellFormed(Run(s, ops).0)
    ensures FlatRun(FlatOf(s), ops) == (FlatOf(Run(s, ops).0), Run(s, ops).1)
    decreases ops
  {
    if ops != [] {
      StepRefinesFlat(s, ops[0]);
      RunRefinesFlat(Step(s, ops[0]).0, ops[1..]);
    }
  }

  lemma EmptyIsWellFormed<T>()
    ensures WellFormed(Empty<T>())
    ensures FlatOf(Empty<T>()) == Flat([], [], 0, TWO64 - 1, false)
  {
  }

  /** The two conversions undo each other and change a number only by a multiple of 2^64; the default
    * upper limit is stored as -1. */
  lemma ConversionsInverse(u: uint64, i: int64)
    ensures Unsigned(Signed(u)) == u && Signed(Unsigned(i)) == i
    ensures (Signed(u) - u) % TWO64 == 0 && (Unsigned(i) - i) % TWO64 == 0
    ensures Empty<bool>().upper == -1 && Empty<bool>().lower == 0
  {
  }

  // ---- the candidate batch, limits and pausing ----

  function Adds<T>(xs: seq<T>): (ops: seq<Op<T>>) { seq(|xs|, i requires 0 <= i < |xs| => AddToBatch(xs[i], true)) }

  /** Items added to the candidate stay in the order of their addition. */
  lemma {:induction false} CandidateAccumulates<T>(s: Batching<T>, xs: seq<T>)
    ensures Run(s, Adds(xs)).0 == s.(candidate := s.candidate + xs)
    decreases |xs|
  {
    if xs == [] {
      assert s.candidate + xs == s.candidate;
    } else {
      var s1 := Step(s, AddToBatch(xs[0], true)).0;
      CandidateAccumulates(s1, xs[1..]);
      assert Adds(xs)[1..] == Adds(xs[1..]);
      assert (s.candidate + [xs[0]]) + xs[1..] == s.candidate + xs;
    }
  }

  /** An unforced commit succeeds exactly when the candidate is not empty and its size lies within the
    * limits, a forced one exactly when it is not empty; the batch then is the last one and the
    * candidate is empty, and otherwise nothing changes. */
  lemma CommitSucceedsIff<T>(s: Batching<T>, force: bool)
    ensures var (s', o) := Step(s, Commit(force));
            var n := |s.candidate|;
            && (o == Answer(true) <==> n > 0 && (force || Unsigned(s.lower) <= n <= Unsigned(s.upper)))
            && (o == Answer(true) ==>
                  |s'.batches| == |s.batches| + 1 && s'.batches[|s.batches|] == s.candidate && s'.candidate == [])
            && (o != Answer(true) ==> o == Answer(false) && s' == s)
  {
  }

  /** A limit is accepted exactly when the two stay in order, and then it is the one in force. */
  lemma LimitAcceptedIff<T>(s: Batching<T>, limit: uint64)
    ensures var (s', o) := Step(s, SetUpper(limit));
            && (o == Answer(true) <==> Unsigned(s.lower) <= limit)
            && Unsigned(s'.upper) == (if o == Answer(true) then limit else Unsigned(s.upper)) && s'.lower == s.lower
    ensures var (s', o) := Step(s, SetLower(limit));
            && (o == Answer(true) <==> limit <= Unsigned(s.upper))
            && Unsigned(s'.lower) == (if o == Answer(true) then limit else Unsigned(s.lower)) && s'.upper == s.upper
  {
  }

  /** Neither resumed nor reset. */
  ghost predicate StaysPaused<T>(ops: seq<Op<T>>) {
    forall i | 0 <= i < |ops| :: !ops[i].Resume? && !ops[i].Reset?
  }

  lemma {:induction false} PausedStaysSilent<T>(s: Batching<T>, ops: seq<Op<T>>)
    requires s.paused && StaysPaused(ops)
    ensures Delivered(Run(s, ops).1) == [] && Run(s, ops).0.paused
    decreases ops
  {
    if ops != [] {
      var (s1, o) := Step(s, ops[0]);
      assert s1.paused && !o.Got?;
      PausedStaysSilent(s1, ops[1..]);
      DeliveredFirst(o, Run(s1, ops[1..]).1);
    }
  }

  /** A paused queue delivers nothing until it is resumed or reset; a resumed one delivers its oldest
    * item again. */
  lemma PauseAndResume<T>(s: Batching<T>, ops: seq<Op<T>>)
    requires StaysPaused(ops)
    ensures Delivered(Run(Step(s, Pause).0, ops).1) == []
    ensures WellFormed(s) && s.batches != [] ==> Step(Step(s, Resume).0, Pull).1 == Got(Flatten(s.batches)[0])
  {
    PausedStaysSilent(Step(s, Pause).0, ops);
    if WellFormed(s) && s.batches != [] {
      EmptyOrNot(s.batches);
      PullFront(s.batches);
    }
  }

  /** A purge drops the queued batches and nothing else, discarding the candidate drops the candidate and
    * nothing else, and a reset queue is like a new one. */
  lemma WhatIsDropped<T>(s: Batching<T>, x: T)
    ensures var s' := Step(s, Purge).0; s'.batches == [] && s'.(batches := s.batches) == s
    ensures var s' := Step(s, ResetBatch).0; s'.candidate == [] && s'.(candidate := s.candidate) == s
    ensures Step(s, ResetBatch).1 == Answer(s.candidate != [])
    ensures Step(Step(s, Reset).0, Pull).1 == Missed && Step(Step(s, Reset).0, Commit(true)).1 == Answer(false)
    ensures var s' := Step(Step(s, Reset).0, Cast(x)).0; Step(s', Pull).1 == Got(x)
    ensures var s' := Step(s, Reset).0; Unsigned(s'.lower) == 0 && Unsigned(s'.upper) == TWO64 - 1
  {
    assert [] + [[x]] == [[x]];
    FlattenOne([x]);
    FlattenSize([[x]]);
  }

  // ---- conservation ----

  function Delivered<T>(outs: seq<Out<T>>): (items: seq<T>) {
    if outs == [] then []
    else (if outs[0].Got? then [outs[0].item] else []) + Delivered(outs[1..])
  }

  /** The batch that an operation adds, if any: a singleton for a cast, the whole candidate for
    * an accepted commit. */
  function EnteredBy<T>(s: Batching<T>, op: Op<T>): (batches: seq<seq<T>>) {
    match op
    case Cast(x) => [[x]]
    case Commit(_) => if Step(s, op).1 == Answer(true) then [s.candidate] else []
    case _ => []
  }

  /** The batches that entered the queue during a run, in order. */
  function Entered<T>(s: Batching<T>, ops: seq<Op<T>>): (batches: seq<seq<T>>)
    decreases ops
  {
    if ops == [] then [] else EnteredBy(s, ops[0]) + Entered(Step(s, ops[0]).0, ops[1..])
  }

  ghost predicate KeepsItems<T>(ops: seq<Op<T>>) {
    forall i | 0 <= i < |ops| :: !ops[i].Purge? && !ops[i].Reset?
  }

  /** Over any run without purge or reset the items delivered, followed by those still queued, are
    * the batches that entered, in the order they entered and each in one piece. */
  lemma {:induction false} RunConservesItems<T>(s: Batching<T>, ops: seq<Op<T>>)
    requires WellFormed(s) && KeepsItems(ops)
    ensures Delivered(Run(s, ops).1) + Flatten(Run(s, ops).0.batches)
         == Flatten(s.batches) + Flatten(Entered(s, ops))
    decreases ops
  {
    if ops == [] {
      assert Flatten(s.batches) + [] == Flatten(s.batches);
    } else {
      var (s1, o) := Step(s, ops[0]);
      var (s2, os) := Run(s1, ops[1..]);
      var now, later := EnteredBy(s, ops[0]), Entered(s1, ops[1..]);
      assert WellFormed(s1) by { StepRefinesFlat(s, ops[0]); }
      assert KeepsItems(ops[1..]);
      RunConservesItems(s1, ops[1..]);
      StepConserves(s, ops[0]);
      Chain(Flatten(s.batches), Flatten(now), Flatten(s1.batches), Flatten(later), Flatten(s2.batches),
            Delivered([o]), Delivered(os));
      assert Flatten(Entered(s, ops)) == Flatten(now) + Flatten(later) by { FlattenAppend(now, later); }
      assert Delivered([o] + os) == Delivered([o]) + Delivered(os) by { DeliveredFirst(o, os); }
    }
  }

  lemma DeliveredFirst<T>(o: Out<T>, os: seq<Out<T>>)
    ensures Delivered([o]) == if o.Got? then [o.item] else []
    ensures Delivered([o] + os) == Delivered([o]) + Delivered(os)
  {
    assert [o][1..] == [] && ([o] + os)[1..] == os;
    assert Delivered([o][1..]) == [];
  }

  lemma Chain<T>(f0: seq<T>, in0: seq<T>, f1: seq<T>, in1: seq<T>, f2: seq<T>, out0: seq<T>, out1: seq<T>)
    requires f0 + in0 == out0 + f1
    requires f1 + in1 == out1 + f2
    ensures f0 + (in0 + in1) == (out0 + out1) + f2
  {
    assert f0 + (in0 + in1) == (f0 + in0) + in1 == out0 + (f1 + in1) == out0 + (out1 + f2);
  }

  lemma StepConserves<T>(s: Batching<T>, op: Op<T>)
    requires WellFormed(s) && !op.Purge? && !op.Reset?
    ensures Flatten(s.batches) + Flatten(EnteredBy(s, op))
         == Delivered([Step(s, op).1]) + Flatten(Step(s, op).0.batches)
  {
    DeliveredFirst(Step(s, op).1, []);
    if EnteredBy(s, op) != [] {
      FlattenAppend(s.batches, EnteredBy(s, op));
    } else if Step(s, op).1.Got? {
      PullFront(s.batches);
    } else {
      assert Step(s, op).0.batches == s.batches;
    }
  }
}
