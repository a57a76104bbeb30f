/** The plain queue with a lower and an upper size limit. The limits are signed, but they are compared
  * with the unsigned size of the container, which converts a negative limit to a huge one. */
module Queues {
  import opened Sequences
  import B = BatchSpec

  type int64 = B.int64

  datatype Limited<T> = Limited(items: seq<T>, min: int64, max: int64, paused: bool)

  datatype Op<T> =
    | Cast(item: T)
    | Pull
    | SetMin(size: int64)
    | SetMax(size: int64)
    | SetPaused(on: bool)
    | Purge
    | Reset

  function Empty<T>(): (q: Limited<T>) { Limited([], 0, B.TWO63 - 1, false) }

  predicate Accepts<T>(q: Limited<T>) {
    |q.items| + 1 <= B.Unsigned(q.max)
  }

  predicate Delivers<T>(q: Limited<T>) {
    !q.paused && |q.items| > B.Unsigned(q.min)
  }

  /** A purge only wakes waiting callers; the items stay. */
  function Step<T>(q: Limited<T>, op: Op<T>): (q': Limited<T>) {
    match op
    case Cast(x) => if Accepts(q) then q.(items := q.items + [x]) else q
    case Pull => if Delivers(q) then q.(items := q.items[1..]) else q
    case SetMin(n) => if n > q.max then q else q.(min := n)
    case SetMax(n) => if n < q.min then q else q.(max := n)
    case SetPaused(on) => q.(paused := on)
    case Purge => q
    case Reset => Empty()
  }

  function Run<T>(q: Limited<T>, ops: seq<Op<T>>): (q': Limited<T>) {
    if ops == [] then q else Step(Run(q, ops[..|ops| - 1]), ops[|ops| - 1])
  }

  /** What one operation adds to the items accepted and to those delivered. */
  function AcceptedBy<T>(q: Limited<T>, op: Op<T>): (items: seq<T>) {
    if op.Cast? && Accepts(q) then [op.item] else []
  }

  function DeliveredBy<T>(q: Limited<T>, op: Op<T>): (items: seq<T>) {
    if op.Pull? && Delivers(q) then [q.items[0]] else []
  }

  /** The items accepted in a run. */
  function Accepted<T>(q: Limited<T>, ops: seq<Op<T>>): (items: seq<T>) {
    if ops == [] then []
    else Accepted(q, ops[..|ops| - 1]) + AcceptedBy(Run(q, ops[..|ops| - 1]), ops[|ops| - 1])
  }

  /** The items delivered in a run. */
  function Delivered<T>(q: Limited<T>, ops: seq<Op<T>>): (items: seq<T>) {
    if ops == [] then []
    else Delivered(q, ops[..|ops| - 1]) + DeliveredBy(Run(q, ops[..|ops| - 1]), ops[|ops| - 1])
  }

  ghost predicate NoReset<T>(ops: seq<Op<T>>) {
    forall i | 0 <= i < |ops| :: !ops[i].Reset?
  }

  lemma StepConserves<T>(q: Limited<T>, op: Op<T>)
    requires !op.Reset?
    ensures q.items + AcceptedBy(q, op) == DeliveredBy(q, op) + Step(q, op).items
  {
    if op.Pull? && Delivers(q) {
      assert q.items == [q.items[0]] + q.items[1..];
    }
  }

  lemma Regroup<T>(start: seq<T>, accepted: seq<T>, delivered: seq<T>, now: seq<T>,
                   more: seq<T>, gone: seq<T>, rest: seq<T>)
    requires start + accepted == delivered + now && now + more == gone + rest
    ensures start + (accepted + more) == (delivered + gone) + rest
  {
    assert start + (accepted + more) == (start + accepted) + more == delivered + (now + more);
    assert delivered + (gone + rest) == (delivered + gone) + rest;
  }

  /** Between two resets nothing is lost, invented or reordered, whatever becomes of the limits. */
  lemma {:induction false} RunConservesItems<T>(q: Limited<T>, ops: seq<Op<T>>)
    requires NoReset(ops)
    ensures q.items + Accepted(q, ops) == Delivered(q, ops) + Run(q, ops).items
  {
    if ops != [] {
      var earlier, op := ops[..|ops| - 1], ops[|ops| - 1];
      var now := Run(q, earlier);
      RunConservesItems(q, earlier);
      StepConserves(now, op);
      Regroup(q.items, Accepted(q, earlier), Delivered(q, earlier), now.items, AcceptedBy(now, op),
              DeliveredBy(now, op), Step(now, op).items);
    }
  }

  /** The stored limits never cross. */
  lemma {:induction false} LimitsStayOrdered<T>(q: Limited<T>, ops: seq<Op<T>>)
    requires q.min <= q.max
    ensures Run(q, ops).min <= Run(q, ops).max
  {
    if ops != [] {
      LimitsStayOrdered(q, ops[..|ops| - 1]);
    }
  }

  function Larger(a: int, b: int): (r: int) { if a < b then b else a }

  ghost predicate KeepsLimits<T>(ops: seq<Op<T>>) {
    forall i | 0 <= i < |ops| :: !ops[i].SetMin? && !ops[i].SetMax? && !ops[i].Reset?
  }

  /** While the limits stand, casts never carry the size above the upper one and pulls never carry it
    * below the lower one. */
  lemma {:induction false} SizeStaysWithin<T>(q: Limited<T>, ops: seq<Op<T>>)
    requires KeepsLimits(ops)
    ensures Run(q, ops).min == q.min && Run(q, ops).max == q.max
    ensures Min(|q.items|, B.Unsigned(q.min)) <= |Run(q, ops).items| <= Larger(|q.items|, B.Unsigned(q.max))
  {
    if ops != [] {
      SizeStaysWithin(q, ops[..|ops| - 1]);
    }
  }

  // ---- pausing and resetting ----

  lemma PrefixOfJoin<T>(first: seq<Op<T>>, second: seq<Op<T>>)
    requires second != []
    ensures var k, all := |second| - 1, first + second;
            all[..|all| - 1] == first + second[..k] && all[|all| - 1] == second[k]
  {
  }

  lemma {:induction false} RunsJoin<T>(q: Limited<T>, first: seq<Op<T>>, second: seq<Op<T>>)
    ensures Run(q, first + second) == Run(Run(q, first), second)
  {
    if second == [] {
      assert first + second == first;
    } else {
      PrefixOfJoin(first, second);
      RunsJoin(q, first, second[..|second| - 1]);
    }
  }

  lemma {:induction false} DeliveriesJoin<T>(q: Limited<T>, first: seq<Op<T>>, second: seq<Op<T>>)
    ensures Delivered(q, first + second) == Delivered(q, first) + Delivered(Run(q, first), second)
  {
    if second == [] {
      assert first + second == first;
    } else {
      var before, now := second[..|second| - 1], Run(q, first);
      PrefixOfJoin(first, second);
      RunsJoin(q, first, before);
      DeliveriesJoin(q, first, before);
      var last := DeliveredBy(Run(now, before), second[|second| - 1]);
      assert Delivered(q, first + second) == Delivered(q, first + before) + last;
      assert Delivered(now, second) == Delivered(now, before) + last;
    }
  }

  lemma OneOp<T>(q: Limited<T>, op: Op<T>)
    ensures Run(q, [op]) == Step(q, op) && Delivered(q, [op]) == DeliveredBy(q, op)
  {
    assert [op][..0] == [];
    assert [] + DeliveredBy(q, op) == DeliveredBy(q, op);
  }

  /** Neither resumed nor reset. */
  ghost predicate StaysPaused<T>(ops: seq<Op<T>>) {
    forall i | 0 <= i < |ops| :: ops[i] != SetPaused(false) && !ops[i].Reset?
  }

  /** A paused queue delivers nothing until it is resumed or reset; what is accepted meanwhile stays. */
  lemma {:induction false} PausedDeliversNothing<T>(q: Limited<T>, ops: seq<Op<T>>)
    requires StaysPaused(ops)
    ensures Delivered(q, [SetPaused(true)] + ops) == []
    ensures Run(q, [SetPaused(true)] + ops).paused
  {
    var on: Op<T> := SetPaused(true);
    OneOp(q, on);
    if ops == [] {
      assert [on] + ops == [on];
    } else {
      var k := |ops| - 1;
      PausedDeliversNothing(q, ops[..k]);
      assert ([on] + ops)[..k + 1] == [on] + ops[..k];
      assert ([on] + ops)[k + 1] == ops[k];
    }
  }

  function Pulls<T>(n: nat): (ops: seq<Op<T>>) { seq(n, _ => Pull) }

  lemma {:induction false} PullsTake<T>(q: Limited<T>, n: nat)
    requires !q.paused && n <= Larger(0, |q.items| - B.Unsigned(q.min))
    ensures Run(q, Pulls(n)) == q.(items := q.items[n..])
  {
    if n > 0 {
      PullsTake(q, n - 1);
      assert Pulls<T>(n)[..n - 1] == Pulls(n - 1);
      assert q.items[n - 1..][1..] == q.items[n..];
    }
  }

  lemma OneMoreDelivered<T>(q: Limited<T>, ops: seq<Op<T>>, op: Op<T>)
    ensures Delivered(q, ops + [op]) == Delivered(q, ops) + DeliveredBy(Run(q, ops), op)
  {
    assert (ops + [op])[..|ops|] == ops;
  }

  lemma NthDelivered<T>(q: Limited<T>, n: nat)
    requires !q.paused && 0 < n <= |q.items| - B.Unsigned(q.min)
    ensures DeliveredBy(q.(items := q.items[n - 1..]), Op.Pull) == [q.items[n - 1]]
    ensures q.items[..n - 1] + [q.items[n - 1]] == q.items[..n]
  {
  }

  lemma {:induction false} PullsDeliver<T>(q: Limited<T>, n: nat)
    requires !q.paused && n <= Larger(0, |q.items| - B.Unsigned(q.min))
    ensures Delivered(q, Pulls(n)) == q.items[..n]
  {
    if n > 0 {
      PullsTake(q, n - 1);
      PullsDeliver(q, n - 1);
      OneMoreDelivered(q, Pulls(n - 1), Op.Pull);
      NthDelivered(q, n);
      assert Pulls<T>(n - 1) + [Op.Pull] == Pulls(n);
    }
  }

  /** After a resumption pulls deliver the oldest items, down to the lower limit. */
  lemma ResumedDelivers<T>(q: Limited<T>, n: nat)
    requires n <= |q.items| - B.Unsigned(q.min)
    ensures Delivered(q, [SetPaused(false)] + Pulls(n)) == q.items[..n]
  {
    var off: Op<T> := SetPaused(false);
    OneOp(q, off);
    DeliveriesJoin(q, [off], Pulls(n));
    PullsDeliver(q.(paused := false), n);
  }

  /** A reset queue goes on like a new one. */
  lemma ResetForgets<T>(q: Limited<T>, ops: seq<Op<T>>)
    ensures Run(q, [Op.Reset] + ops) == Run(Empty(), ops)
    ensures Delivered(q, [Op.Reset] + ops) == Delivered(Empty(), ops)
  {
    OneOp(q, Op.Reset);
    RunsJoin(q, [Op.Reset], ops);
    DeliveriesJoin(q, [Op.Reset], ops);
  }

  /** A new queue takes up to 2^63 - 1 items, and delivers the first one at once. */
  lemma {:induction false} NewQueueHolds<T>(x: T, n: nat)
    ensures Run(Empty(), seq(n, _ => Cast(x))).items == seq(Min(n, B.TWO63 - 1), _ => x)
    ensures var q := Run(Empty(), seq(n, _ => Cast(x))); q == Empty().(items := q.items)
  {
    if n > 0 {
      NewQueueHolds(x, n - 1);
      assert seq(n, _ => Cast(x))[..n - 1] == seq(n - 1, _ => Cast(x));
    }
  }

  lemma NewQueueDelivers<T>(x: T)
    ensures Delivered(Empty(), [Cast(x), Op.Pull]) == [x]
  {
    OneOp(Empty(), Cast(x));
    OneOp(Step(Empty(), Cast(x)), Op.Pull);
    DeliveriesJoin(Empty(), [Cast(x)], [Op.Pull]);
    assert [Cast(x)] + [Op.Pull] == [Cast(x), Op.Pull];
  }

  // ---- limits that jam the queue ----

  /** The queue neither accepts nor delivers, although it is not paused. */
  ghost predicate Jammed<T>(q: Limited<T>) {
    !q.paused && !Accepts(q) && !Delivers(q)
  }

  lemma RunStep<T>(q: Limited<T>, ops: seq<Op<T>>, op: Op<T>)
    ensures Run(q, ops + [op]) == Step(Run(q, ops), op)
  {
    assert (ops + [op])[..|ops|] == ops;
  }

  /** A new queue can be given any ordered limits. */
  function Limiting<T>(min: int64, max: int64): (ops: seq<Op<T>>) {
    if max >= 0 then [SetMax(max), SetMin(min)] else [SetMin(min), SetMax(max)]
  }

  lemma TwoSteps<T>(q: Limited<T>, first: Op<T>, second: Op<T>)
    ensures Run(q, [first, second]) == Step(Step(q, first), second)
  {
    RunStep(q, [], first);
    RunStep(q, [first], second);
    assert [] + [first] == [first] && [first] + [second] == [first, second];
  }

  lemma LimitingSets<T>(min: int64, max: int64)
    requires min <= max
    ensures Run(Empty<T>(), Limiting(min, max)) == Limited([], min, max, false)
  {
    if max >= 0 {
      TwoSteps(Empty<T>(), SetMax(max), SetMin(min));
    } else {
      TwoSteps(Empty<T>(), SetMin(min), SetMax(max));
    }
  }

  /** Filling up to the upper limit. */
  lemma {:induction false} FilledTo<T>(min: int64, max: int64, x: T, n: nat) returns (ops: seq<Op<T>>)
    requires min <= max && n <= B.Unsigned(max)
    ensures Run(Empty(), ops) == Limited(seq(n, _ => x), min, max, false)
    ensures |ops| == n + 2
  {
    if n == 0 {
      ops := Limiting(min, max);
      LimitingSets<T>(min, max);
      assert seq(0, _ => x) == [];
    } else {
      var before := FilledTo(min, max, x, n - 1);
      ops := before + [Cast(x)];
      RunStep(Empty(), before, Cast(x));
      assert seq(n, _ => x) == seq(n - 1, _ => x) + [x];
    }
  }

  /** Under given limits some run of a new queue ends in a jam if and only if the limits are equal or
    * the lower one alone is negative. */
  lemma JamsIff<T>(min: int64, max: int64, x: T)
    requires min <= max
    ensures (exists ops: seq<Op<T>> ::
               var q := Run(Empty(), ops); q.min == min && q.max == max && Jammed(q))
       <==> min == max || min < 0 <= max
  {
    if min == max || min < 0 <= max {
      var ops := FilledTo(min, max, x, B.Unsigned(max));
      assert Jammed(Run(Empty(), ops));
    }
  }

  /** A jam lasts until the limits are changed or the queue is reset. */
  lemma {:induction false} JamLasts<T>(q: Limited<T>, ops: seq<Op<T>>)
    requires !Accepts(q) && |q.items| <= B.Unsigned(q.min) && KeepsLimits(ops)
    ensures Run(q, ops).(paused := q.paused) == q && Delivered(q, ops) == [] && Accepted(q, ops) == []
  {
    if ops != [] {
      JamLasts(q, ops[..|ops| - 1]);
    }
  }

  /** A jam with limits 1 and -1 and a single item, whatever is tried afterwards. */
  lemma SmallJam<T>(x: T, ops: seq<Op<T>>)
    requires KeepsLimits(ops)
    ensures var q := Run(Empty(), [SetMax(1), SetMin(-1), Cast(x)]);
            && q == Limited([x], -1, 1, false) && Jammed(q)
            && Run(q, ops).items == [x] && Delivered(q, ops) == [] && Accepted(q, ops) == []
  {
    LimitingSets<T>(-1, 1);
    RunStep(Empty(), [SetMax(1), SetMin(-1)], Cast(x));
    assert [SetMax(1), SetMin(-1)] + [Cast(x)] == [SetMax(1), SetMin(-1), Cast(x)];
    JamLasts(Limited([x], -1, 1, false), ops);
  }

  /** A pull is refused as long as the size has not passed the lower limit as it is compared; for a
    * negative limit that takes at least 2^63 operations. */
  lemma {:induction false} NegativeMinimumDeliversNothing<T>(q: Limited<T>, ops: seq<Op<T>>)
    requires q.min < 0 && KeepsLimits(ops) && |q.items| + |ops| <= B.Unsigned(q.min)
    ensures Delivered(q, ops) == [] && Run(q, ops).min == q.min && |Run(q, ops).items| <= |q.items| + |ops|
    ensures B.Unsigned(q.min) >= B.TWO63
  {
    if ops != [] {
      NegativeMinimumDeliversNothing(q, ops[..|ops| - 1]);
    }
  }

  /** Reading without waiting. */
  class Queue<T(0)> {
    var itsQ: seq<T>
    var minQSize: int64
    var maxQSize: int64
    var paused: bool

    ghost function View(): (q: Limited<T>)
      reads this
    {
      Limited(itsQ, minQSize, maxQSize, paused)
    }

    constructor ()
      ensures View() == Empty()
    {
      itsQ := [];
      minQSize, maxQSize := 0, B.TWO63 - 1;
      paused := false;
    }

    method CastObject(item: T) returns (insert: bool)
      modifies this
      ensures insert <==> |old(itsQ)| + 1 <= B.Unsigned(maxQSize)
      ensures itsQ == if insert then old(itsQ) + [item] else old(itsQ)
      ensures View() == Step(old(View()), Cast(item))
    {
      insert := |itsQ| + 1 <= B.Unsigned(maxQSize);
      if insert {
        itsQ := itsQ + [item];
      }
    }

    method Pull() returns (item: T, success: bool)
      modifies this
      ensures success <==> !paused && |old(itsQ)| > B.Unsigned(minQSize)
      ensures success ==> item == old(itsQ[0])
      ensures itsQ == if success then old(itsQ)[1..] else old(itsQ)
      ensures View() == Step(old(View()), Op.Pull)
    {
      if paused {
        item, success := *, false;
        return;
      }
      if |itsQ| > B.Unsigned(minQSize) {
        item, success := itsQ[0], true;
        itsQ := itsQ[1..];
      } else {
        item, success := *, false;
      }
    }

    method SetMaxQSize(size: int64) returns (r: bool)
      modifies this
      ensures r == (size >= old(minQSize)) && maxQSize == (if r then size else old(maxQSize))
      ensures View() == Step(old(View()), SetMax(size))
    {
      r := true;
      if size < minQSize {
        r := false;
      } else {
        maxQSize := size;
      }
    }

    method SetMinQSize(size: int64) returns (r: bool)
      modifies this
      ensures r == (size <= old(maxQSize)) && minQSize == (if r then size else old(minQSize))
      ensures View() == Step(old(View()), SetMin(size))
    {
      r := true;
      if size > maxQSize {
        r := false;
      } else {
        minQSize := size;
      }
    }

    method Reset()
      modifies this
      ensures View() == Step(old(View()), Op.Reset)
      ensures itsQ == [] && minQSize == 0 && maxQSize == B.TWO63 - 1 && !paused
    {
      itsQ := [];
      minQSize, maxQSize := 0, B.TWO63 - 1;
      paused := false;
    }
  }
}
