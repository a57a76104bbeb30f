/** Replacing a handler while it may be in use: two slots, one read and one written. */
module HotSwap {
  import opened Sequences

  datatype Slots<V> = Slots(slot: seq<V>, r: int, w: int, reload: bool)

  datatype Op<V> = Set(v: V) | Switch

  function Fresh<V>(v: V): (s: Slots<V>) {
    Slots([v, v], 1, 0, false)
  }

  ghost predicate Proper<V>(s: Slots<V>) {
    |s.slot| == 2 && 0 <= s.r < 2 && 0 <= s.w < 2 && s.r != s.w
  }

  function Step<V>(s: Slots<V>, op: Op<V>): (s': Slots<V>)
    requires Proper(s)
    ensures Proper(s')
  {
    match op
    case Set(v) => s.(slot := s.slot[s.w := v], reload := true)
    case Switch => if s.reload then s.(r := (s.r + 1) % 2, w := (s.w + 1) % 2, reload := false) else s
  }

  function Run<V>(s: Slots<V>, ops: seq<Op<V>>): (s': Slots<V>)
    requires Proper(s)
    ensures Proper(s')
  {
    if ops == [] then s else Step(Run(s, ops[..|ops| - 1]), ops[|ops| - 1])
  }

  function Current<V>(s: Slots<V>): (v: V)
    requires Proper(s)
  {
    s.slot[s.r]
  }

  // ---- a current value and a pending one ----

  datatype Pair<V> = Pair(current: V, pending: Option<V>)

  function PairOf<V>(s: Slots<V>): (p: Pair<V>)
    requires Proper(s)
  {
    Pair(s.slot[s.r], if s.reload then Some(s.slot[s.w]) else None)
  }

  function PairStep<V>(p: Pair<V>, op: Op<V>): (p': Pair<V>) {
    match op
    case Set(v) => p.(pending := Some(v))
    case Switch => if p.pending.Some? then Pair(p.pending.value, None) else p
  }

  function PairRun<V>(p: Pair<V>, ops: seq<Op<V>>): (p': Pair<V>) {
    if ops == [] then p else PairStep(PairRun(p, ops[..|ops| - 1]), ops[|ops| - 1])
  }

  /** The two slots, the two indices and the flag behave as the pair does. */
  lemma {:induction false} RunRefinesPair<V>(s: Slots<V>, ops: seq<Op<V>>)
    requires Proper(s)
    ensures PairOf(Run(s, ops)) == PairRun(PairOf(s), ops)
  {
    if ops != [] {
      RunRefinesPair(s, ops[..|ops| - 1]);
    }
  }

  // ---- which value is read ----

  function LastSet<V>(ops: seq<Op<V>>): (v: Option<V>) {
    if ops == [] then None
    else if ops[|ops| - 1].Set? then Some(ops[|ops| - 1].v)
    else LastSet(ops[..|ops| - 1])
  }

  /** The operations before the last switch. */
  function BeforeLastSwitch<V>(ops: seq<Op<V>>): (before: seq<Op<V>>) {
    if ops == [] then []
    else if ops[|ops| - 1].Switch? then ops[..|ops| - 1]
    else BeforeLastSwitch(ops[..|ops| - 1])
  }

  /** The value read is the last one set before the last switch, or the old one if there is none. */
  lemma {:induction false} ReadsLastSetBeforeSwitch<V>(s: Slots<V>, ops: seq<Op<V>>)
    requires Proper(s) && !s.reload
    ensures var set0 := LastSet(BeforeLastSwitch(ops));
            Current(Run(s, ops)) == (if set0.Some? then set0.value else Current(s))
    ensures var t, all := Run(s, ops), LastSet(ops);
            if t.reload then all == Some(t.slot[t.w])
            else Current(t) == (if all.Some? then all.value else Current(s))
  {
    if ops != [] {
      ReadsLastSetBeforeSwitch(s, ops[..|ops| - 1]);
    }
  }

  // ---- iterating over the read slot without the lock ----

  /** Whether some set of the run writes slot `i`. */
  ghost predicate Writes<V>(s: Slots<V>, ops: seq<Op<V>>, i: int)
    requires Proper(s)
    decreases ops
  {
    ops != [] && ((ops[0].Set? && s.w == i) || Writes(Step(s, ops[0]), ops[1..], i))
  }

  predicate HasSet<V>(ops: seq<Op<V>>) {
    ops != [] && (ops[0].Set? || HasSet(ops[1..]))
  }

  /** A switch, and later a set. */
  predicate SwitchThenSet<V>(ops: seq<Op<V>>) {
    ops != [] && (if ops[0].Switch? then HasSet(ops[1..]) else SwitchThenSet(ops[1..]))
  }

  /** A set, later a switch, and later another set. */
  predicate SetSwitchSet<V>(ops: seq<Op<V>>) {
    ops != [] && (if ops[0].Set? then SwitchThenSet(ops[1..]) else SetSwitchSet(ops[1..]))
  }

  /** A reader that has just switched iterates over slot `s.r` without the lock. What happens
    * meanwhile writes that slot exactly when it contains a set, a later switch and a later set. */
  lemma {:induction false} SlotInUseWrittenIff<V>(s: Slots<V>, ops: seq<Op<V>>)
    requires Proper(s) && !s.reload
    ensures Writes(s, ops, s.r) <==> SetSwitchSet(ops)
    decreases ops
  {
    if ops != [] {
      if ops[0].Set? {
        PendingWrittenIff(Step(s, ops[0]), ops[1..]);
      } else {
        SlotInUseWrittenIff(s, ops[1..]);
      }
    }
  }

  lemma {:induction false} PendingWrittenIff<V>(s: Slots<V>, ops: seq<Op<V>>)
    requires Proper(s) && s.reload
    ensures Writes(s, ops, s.r) <==> SwitchThenSet(ops)
    decreases ops
  {
    if ops != [] {
      if ops[0].Set? {
        PendingWrittenIff(Step(s, ops[0]), ops[1..]);
      } else {
        WriteSlotWrittenIff(Step(s, ops[0]), ops[1..]);
      }
    }
  }

  lemma {:induction false} WriteSlotWrittenIff<V>(s: Slots<V>, ops: seq<Op<V>>)
    requires Proper(s) && !s.reload
    ensures Writes(s, ops, s.w) <==> HasSet(ops)
    decreases ops
  {
    if ops != [] && ops[0].Switch? {
      WriteSlotWrittenIff(s, ops[1..]);
    }
  }

  ghost predicate NoSwitch<V>(ops: seq<Op<V>>) {
    forall i | 0 <= i < |ops| :: ops[i].Set?
  }

  /** With a single reader nobody else switches, so setters never touch the slot in use. */
  lemma {:induction false} SingleReaderIsSafe<V>(s: Slots<V>, ops: seq<Op<V>>)
    requires Proper(s) && NoSwitch(ops)
    ensures !Writes(s, ops, s.r)
    ensures Run(s, ops).r == s.r && Current(Run(s, ops)) == Current(s)
    decreases |ops|
  {
    if ops != [] {
      SingleReaderIsSafe(Step(s, ops[0]), ops[1..]);
      FrontStep(s, ops);
    }
  }

  lemma {:induction false} FrontStep<V>(s: Slots<V>, ops: seq<Op<V>>)
    requires Proper(s) && ops != []
    ensures Run(s, ops) == Run(Step(s, ops[0]), ops[1..])
  {
    if |ops| > 1 {
      assert ops[..|ops| - 1][0] == ops[0];
      assert ops[..|ops| - 1][1..] == ops[1..][..|ops| - 2];
      FrontStep(s, ops[..|ops| - 1]);
    }
  }

  /** The slots of one handler, as a session keeps them. */
  class HotSlots<V> {
    var slots: seq<V>
    var indexR: int
    var indexW: int
    var reload: bool

    ghost predicate Valid()
      reads this
    {
      Proper(View())
    }

    ghost function View(): (s: Slots<V>)
      reads this
    {
      Slots(slots, indexR, indexW, reload)
    }

    constructor (v: V)
      ensures Valid() && View() == Fresh(v)
    {
      slots := [v, v];
      indexR, indexW, reload := 1, 0, false;
    }

    method Store(v: V)
      requires Valid()
      modifies this
      ensures Valid() && View() == Step(old(View()), Set(v))
      ensures slots[indexW] == v && slots[indexR] == old(slots[indexR]) && indexR == old(indexR) && reload
    {
      slots := slots[indexW := v];
      reload := true;
    }

    /** An absent handler is refused and changes nothing. */
    method Offer(v: Option<V>) returns (r: bool)
      requires Valid()
      modifies this
      ensures Valid() && r == v.Some?
      ensures View() == if v.Some? then Step(old(View()), Set(v.value)) else old(View())
    {
      r := false;
      if v.Some? {
        Store(v.value);
        r := true;
      }
    }

    method SwitchOver() returns (index: int, switched: bool)
      requires Valid()
      modifies this
      ensures Valid() && View() == Step(old(View()), Switch)
      ensures index == indexR && switched == old(reload) && !reload && slots == old(slots)
      ensures indexR == if switched then old(indexW) else old(indexR)
    {
      switched := false;
      if reload {
        indexW := indexW + 1;
        indexW := indexW % 2;
        indexR := indexR + 1;
        indexR := indexR % 2;
        reload := false;
        switched := true;
      }
      index := indexR;
    }
  }
}
