/** Running one item through a session's routines, and who ends up owning the objects. */
module Composition {
  import opened Sequences
  import opened Collectors

  /** What a routine can see and change besides its argument: objects numbered below `next` exist,
    * `rest` stands for everything else. */
  datatype World = World(next: nat, rest: int)

  datatype Routine = Routine(run: (Ptr, World) -> (Ptr, World))

  /** One call of a routine. */
  function Call(f: Routine, x: Ptr, w: World): (r: (Ptr, World)) { f.run(x, w) }

  datatype ExecUnit = ExecUnit(runL: Routine, runM: Routine)

  datatype Mode = MethodOnly | LambdaOnly | LambdaThenMethod | MethodThenLambda

  function CallsOf(u: ExecUnit, mode: Mode): (calls: seq<Routine>) {
    match mode
    case MethodOnly => [u.runM]
    case LambdaOnly => [u.runL]
    case LambdaThenMethod => [u.runL, u.runM]
    case MethodThenLambda => [u.runM, u.runL]
  }

  /** All calls a list of units stands for, in order. */
  function AllCalls(units: seq<ExecUnit>, mode: Mode): (calls: seq<Routine>) {
    if units == [] then [] else AllCalls(units[..|units| - 1], mode) + CallsOf(units[|units| - 1], mode)
  }

  // ---- what composition means ----

  /** Left-to-right composition: the first routine is applied first. */
  function Compose(calls: seq<Routine>, x: Ptr, w: World): (r: (Ptr, World)) {
    if calls == [] then (x, w)
    else
      var (y, w1) := Call(calls[0], x, w);
      Compose(calls[1..], y, w1)
  }

  /** Every routine is applied to the original item, the last result counts. */
  function LastAlone(calls: seq<Routine>, x: Ptr, w: World): (r: (Ptr, World)) {
    if calls == [] then (x, w)
    else
      var (_, w1) := LastAlone(calls[..|calls| - 1], x, w);
      Call(calls[|calls| - 1], x, w1)
  }

  /** The item and every intermediate result. */
  function Trail(calls: seq<Routine>, x: Ptr, w: World): (r: (seq<Ptr>, World))
    ensures r.0 != []
  {
    if calls == [] then ([x], w)
    else
      var (t, w1) := Trail(calls[..|calls| - 1], x, w);
      var (y, w2) := Call(calls[|calls| - 1], t[|t| - 1], w1);
      (t + [y], w2)
  }

  function Last<T>(s: seq<T>): (x: T)
    requires s != []
  {
    s[|s| - 1]
  }

  lemma {:induction false} TrailFromFront(calls: seq<Routine>, x: Ptr, w: World)
    requires calls != []
    ensures var (y, w1) := Call(calls[0], x, w);
            Trail(calls, x, w) == ([x] + Trail(calls[1..], y, w1).0, Trail(calls[1..], y, w1).1)
  {
    var k := |calls| - 1;
    if k > 0 {
      TrailFromFront(calls[..k], x, w);
      assert calls[..k][1..] == calls[1..][..k - 1];
      assert calls[..k][0] == calls[0];
      var (y, w1) := Call(calls[0], x, w);
      var (t, w2) := Trail(calls[1..][..k - 1], y, w1);
      assert Last([x] + t) == Last(t);
      var z := Call(calls[k], Last(t), w2).0;
      assert calls[1..][k - 1] == calls[k];
      assert ([x] + t) + [z] == [x] + (t + [z]);
    } else {
      assert calls[..0] == [] && calls[1..] == [];
      assert Trail(calls[..0], x, w).0 == [x];
    }
  }

  /** The intermediate results end in the composition. */
  lemma {:induction false} TrailEndsInComposition(calls: seq<Routine>, x: Ptr, w: World)
    ensures Compose(calls, x, w) == (Last(Trail(calls, x, w).0), Trail(calls, x, w).1)
    decreases |calls|
  {
    if calls != [] {
      var (y, w1) := Call(calls[0], x, w);
      TrailEndsInComposition(calls[1..], y, w1);
      TrailFromFront(calls, x, w);
      assert Last([x] + Trail(calls[1..], y, w1).0) == Last(Trail(calls[1..], y, w1).0);
    }
  }

  // ---- who hands over what ----

  /** The objects replaced along a trail: each non-null one that was followed by something else. */
  function Released(trail: seq<Ptr>): (objs: seq<Ptr>) {
    if |trail| <= 1 then []
    else
      var k := |trail| - 1;
      Released(trail[..k]) + (if trail[k] != trail[k - 1] && trail[k - 1] != Null then [trail[k - 1]] else [])
  }

  function One(p: Ptr): (objs: seq<Ptr>) { if p == Null then [] else [p] }

  /** The objects that appear along a trail: each non-null entry that differs from the one before. */
  function Appearing(trail: seq<Ptr>): (objs: seq<Ptr>) {
    if trail == [] then []
    else
      var k := |trail| - 1;
      Appearing(trail[..k]) + (if k == 0 || trail[k] != trail[k - 1] then One(trail[k]) else [])
  }

  /** Handing over an object when it is replaced, and the final one at the end, hands over exactly
    * the objects that appear. */
  lemma {:induction false} ReleasedThenLast(trail: seq<Ptr>)
    requires trail != []
    ensures Released(trail) + One(Last(trail)) == Appearing(trail)
  {
    if |trail| > 1 {
      ReleasedThenLast(trail[..|trail| - 1]);
    } else {
      assert trail[..0] == [];
    }
  }

  lemma AppearingSnoc(trail: seq<Ptr>, p: Ptr)
    requires trail != []
    ensures Appearing(trail + [p]) == Appearing(trail) + (if p != Last(trail) then One(p) else [])
  {
    var longer, k := trail + [p], |trail|;
    assert longer[..k] == trail && longer[k] == p && longer[k - 1] == Last(trail);
  }

  /** A routine that returns its argument, null or an object that did not exist before. */
  ghost predicate WellBehaved(f: Routine) {
    forall x, w :: GoodResult(x, w, Call(f, x, w).0, Call(f, x, w).1)
  }

  predicate GoodResult(x: Ptr, w: World, y: Ptr, w': World) {
    && w.next <= w'.next
    && (y == x || y == Null || (y.Obj? && w.next <= y.id < w'.next))
  }

  ghost predicate ExistsBefore(objs: seq<Ptr>, next: nat) {
    forall i | 0 <= i < |objs| :: objs[i].Obj? ==> objs[i].id < next
  }

  /** `handed` holds every object of the trail exactly once, and nothing else. */
  ghost predicate EachOnce(trail: seq<Ptr>, handed: seq<Ptr>) {
    && NoDuplicates(handed)
    && (forall p | p in handed :: p in trail && p != Null)
    && (forall p | p in trail :: p == Null || p in handed)
  }

  lemma OneMoreOnce(trail: seq<Ptr>, next: nat, y: Ptr, next': nat)
    requires trail != [] && ExistsBefore(trail, next) && EachOnce(trail, Appearing(trail))
    requires next <= next'
    requires y == Last(trail) || y == Null || (y.Obj? && next <= y.id < next')
    ensures ExistsBefore(trail + [y], next')
    ensures EachOnce(trail + [y], Appearing(trail + [y]))
  {
    AppearingSnoc(trail, y);
    if y.Obj? && y.id >= next {
      assert y !in trail;
    }
  }

  /** With well-behaved routines every object that appears while an item is processed appears as a
    * new one only once. */
  lemma {:induction false} TrailEachOnce(calls: seq<Routine>, x: Ptr, w: World)
    requires forall f | f in calls :: WellBehaved(f)
    requires x.Obj? ==> x.id < w.next
    ensures var (t, w') := Trail(calls, x, w);
            && w.next <= w'.next && ExistsBefore(t, w'.next)
            && EachOnce(t, Appearing(t))
  {
    if calls == [] {
      assert [x][..0] == [];
      assert Appearing([x]) == One(x);
    } else {
      var k := |calls| - 1;
      TrailEachOnce(calls[..k], x, w);
      var (t, w1) := Trail(calls[..k], x, w);
      var f := calls[k];
      assert WellBehaved(f) && GoodResult(Last(t), w1, Call(f, Last(t), w1).0, Call(f, Last(t), w1).1);
      OneMoreOnce(t, w1.next, Call(f, Last(t), w1).0, Call(f, Last(t), w1).1.next);
    }
  }

  // ---- what the words mean ----

  /** The calls of a list are those of its units in order: one of each unit in the modes that run one
    * routine, and two in the others, in the order of the mode. */
  lemma {:induction false} OneCallEach(units: seq<ExecUnit>, mode: Mode, i: nat)
    requires i < |units| && (mode.LambdaOnly? || mode.MethodOnly?)
    ensures |AllCalls(units, mode)| == |units|
    ensures AllCalls(units, mode)[i] == if mode.LambdaOnly? then units[i].runL else units[i].runM
  {
    var k := |units| - 1;
    if k > 0 {
      OneCallEach(units[..k], mode, if i < k then i else 0);
    } else {
      assert AllCalls(units[..k], mode) == [];
    }
  }

  lemma {:induction false} TwoCallsEach(units: seq<ExecUnit>, mode: Mode, i: nat)
    requires i < |units| && (mode.LambdaThenMethod? || mode.MethodThenLambda?)
    ensures |AllCalls(units, mode)| == 2 * |units|
    ensures var calls, u := AllCalls(units, mode), units[i];
            && calls[2 * i] == (if mode.LambdaThenMethod? then u.runL else u.runM)
            && calls[2 * i + 1] == (if mode.LambdaThenMethod? then u.runM else u.runL)
  {
    var k := |units| - 1;
    if k > 0 {
      TwoCallsEach(units[..k], mode, if i < k then i else 0);
    } else {
      assert AllCalls(units[..k], mode) == [];
    }
  }

  /** Composing one list after another; together with the composition of no and of one routine this says
    * that the first routine is applied first. */
  lemma {:induction false} ComposeJoins(first: seq<Routine>, second: seq<Routine>, x: Ptr, w: World)
    ensures Compose([], x, w) == (x, w)
    ensures forall f :: Compose([f], x, w) == Call(f, x, w)
    ensures var (y, w1) := Compose(first, x, w); Compose(first + second, x, w) == Compose(second, y, w1)
    decreases |first|
  {
    forall f
      ensures Compose([f], x, w) == Call(f, x, w)
    {
      var (y, w1) := Call(f, x, w);
      assert [f][1..] == [] && Compose([], y, w1) == (y, w1);
    }
    if first == [] {
      assert first + second == second;
    } else {
      var (y, w1) := Call(first[0], x, w);
      ComposeJoins(first[1..], second, y, w1);
      assert (first + second)[1..] == first[1..] + second;
    }
  }

  // ---- the loop ----

  /** How many units run when the check after unit `i` sees `cancelSeen[i]`. */
  function UnitsRun(cancelSeen: seq<bool>): (n: nat)
    ensures n <= |cancelSeen|
    ensures forall i | 0 <= i < n - 1 :: !cancelSeen[i]
    ensures n < |cancelSeen| ==> n > 0 && cancelSeen[n - 1]
  {
    if cancelSeen == [] then 0
    else if cancelSeen[0] then 1
    else
      var m := UnitsRun(cancelSeen[1..]);
      assert forall i | 0 < i < m :: cancelSeen[i] == cancelSeen[1..][i - 1];
      m + 1
  }

  /** The variables of the loop and what it has handed to the collector. */
  datatype Loop = Loop(result: Ptr, r0: Ptr, w: World, handed: seq<Ptr>)

  function OneCall(s: Loop, f: Routine, autodelete: bool): (s': Loop) {
    var (y, w') := Call(f, s.r0, s.w);
    if autodelete then
      Loop(y, y, w', s.handed + (if y != s.r0 && s.r0 != Null then [s.r0] else []))
    else
      Loop(y, s.r0, w', s.handed)
  }

  function OneUnit(s: Loop, u: ExecUnit, mode: Mode, autodelete: bool): (s': Loop) {
    match mode
    case LambdaOnly => OneCall(s, u.runL, autodelete)
    case MethodOnly => OneCall(s, u.runM, autodelete)
    case LambdaThenMethod => OneCall(OneCall(s, u.runL, autodelete), u.runM, autodelete)
    case MethodThenLambda => OneCall(OneCall(s, u.runM, autodelete), u.runL, autodelete)
  }

  function AfterUnits(x: Ptr, w: World, units: seq<ExecUnit>, mode: Mode, autodelete: bool): (s: Loop) {
    if units == [] then Loop(x, x, w, [])
    else OneUnit(AfterUnits(x, w, units[..|units| - 1], mode, autodelete), units[|units| - 1], mode, autodelete)
  }

  /** The loop variables after the calls `calls`: with autodelete the last result of the trail, the
    * replaced objects having been handed over; without it the last call on the original item. */
  ghost predicate Meaning(s: Loop, calls: seq<Routine>, x: Ptr, w: World, autodelete: bool) {
    if autodelete then
      var (t, w') := Trail(calls, x, w);
      s == Loop(Last(t), Last(t), w', Released(t))
    else
      var (y, w') := LastAlone(calls, x, w);
      s == Loop(y, x, w', [])
  }

  lemma OneMoreCall(s: Loop, calls: seq<Routine>, f: Routine, x: Ptr, w: World, autodelete: bool)
    requires Meaning(s, calls, x, w, autodelete)
    ensures Meaning(OneCall(s, f, autodelete), calls + [f], x, w, autodelete)
  {
    assert (calls + [f])[..|calls|] == calls;
    if autodelete {
      var (t, _) := Trail(calls, x, w);
      var (y, _) := Call(f, s.r0, s.w);
      assert (t + [y])[..|t|] == t;
    }
  }

  lemma OneMoreUnit(s: Loop, calls: seq<Routine>, u: ExecUnit, mode: Mode, x: Ptr, w: World, autodelete: bool)
    requires Meaning(s, calls, x, w, autodelete)
    ensures Meaning(OneUnit(s, u, mode, autodelete), calls + CallsOf(u, mode), x, w, autodelete)
  {
    var first := CallsOf(u, mode)[0];
    OneMoreCall(s, calls, first, x, w, autodelete);
    if |CallsOf(u, mode)| == 2 {
      var second := CallsOf(u, mode)[1];
      OneMoreCall(OneCall(s, first, autodelete), calls + [first], second, x, w, autodelete);
      assert calls + [first] + [second] == calls + CallsOf(u, mode);
    }
  }

  /** In every mode and for every list of units. */
  lemma {:induction false} UnitsMeaning(x: Ptr, w: World, units: seq<ExecUnit>, mode: Mode, autodelete: bool)
    ensures Meaning(AfterUnits(x, w, units, mode, autodelete), AllCalls(units, mode), x, w, autodelete)
  {
    if units != [] {
      var k := |units| - 1;
      UnitsMeaning(x, w, units[..k], mode, autodelete);
      OneMoreUnit(AfterUnits(x, w, units[..k], mode, autodelete), AllCalls(units[..k], mode), units[k], mode,
                  x, w, autodelete);
    }
  }

  /** What the routines compute for an item: with autodelete the left-to-right composition, and the
    * replaced objects, together with the final result, are the objects that appeared; without it
    * the last call applied to the original item, and nothing is handed over. */
  lemma LoopComputes(x: Ptr, w: World, units: seq<ExecUnit>, mode: Mode, autodelete: bool)
    ensures var s := AfterUnits(x, w, units, mode, autodelete);
            var calls := AllCalls(units, mode);
            if autodelete then
              && (s.result, s.w) == Compose(calls, x, w)
              && s.handed + One(s.result) == Appearing(Trail(calls, x, w).0)
            else
              (s.result, s.w) == LastAlone(calls, x, w) && s.handed == []
  {
    UnitsMeaning(x, w, units, mode, autodelete);
    TrailEndsInComposition(AllCalls(units, mode), x, w);
    ReleasedThenLast(Trail(AllCalls(units, mode), x, w).0);
  }

  /** One call: with autodelete a replaced object goes to the collector and the result becomes the
    * next argument; without it the argument stays. `before` is what the collector held before the
    * item. */
  method Invoke(f: Routine, r00: Ptr, w0: World, autodelete: bool, gc: Collector, ghost s: Loop,
                ghost before: seq<Ptr>)
    returns (result: Ptr, r0: Ptr, w: World, ghost s': Loop)
    requires s.r0 == r00 && s.w == w0 && gc.userData == before + s.handed
    modifies gc`userData
    ensures s' == OneCall(s, f, autodelete) && s'.result == result && s'.r0 == r0 && s'.w == w
    ensures gc.userData == before + s'.handed
  {
    var y := Call(f, r00, w0);
    result, w := y.0, y.1;
    r0 := r00;
    if autodelete {
      if result != r0 {
        if r0 != Null {
          gc.CastData(r0);
        }
        r0 := result;
      }
    }
    s' := OneCall(s, f, autodelete);
  }

  /** One unit: its calls in the order of the mode. */
  method RunUnit(u: ExecUnit, mode: Mode, r00: Ptr, w0: World, autodelete: bool, gc: Collector,
                 ghost s: Loop, ghost before: seq<Ptr>)
    returns (result: Ptr, r0: Ptr, w: World, ghost s': Loop)
    requires s.r0 == r00 && s.w == w0 && gc.userData == before + s.handed
    modifies gc`userData
    ensures s' == OneUnit(s, u, mode, autodelete) && s'.result == result && s'.r0 == r0 && s'.w == w
    ensures gc.userData == before + s'.handed
  {
    match mode {
      case LambdaOnly =>
        result, r0, w, s' := Invoke(u.runL, r00, w0, autodelete, gc, s, before);
      case MethodOnly =>
        result, r0, w, s' := Invoke(u.runM, r00, w0, autodelete, gc, s, before);
      case LambdaThenMethod =>
        result, r0, w, s' := Invoke(u.runL, r00, w0, autodelete, gc, s, before);
        result, r0, w, s' := Invoke(u.runM, r0, w, autodelete, gc, s', before);
      case MethodThenLambda =>
        result, r0, w, s' := Invoke(u.runM, r00, w0, autodelete, gc, s, before);
        result, r0, w, s' := Invoke(u.runL, r0, w, autodelete, gc, s', before);
    }
  }

  /** The loop over the units. `cancelSeen[i]` is what the cancellation check after unit `i` reads. */
  method RunRoutines(units: seq<ExecUnit>, mode: Mode, x: Ptr, w0: World, autodelete: bool,
                     cancelSeen: seq<bool>, gc: Collector)
    returns (result: Ptr, w: World, cancelled: bool)
    requires |cancelSeen| == |units|
    modifies gc`userData
    ensures cancelled <==> exists i :: 0 <= i < |units| && cancelSeen[i]
    ensures var s := AfterUnits(x, w0, units[..UnitsRun(cancelSeen)], mode, autodelete);
            result == s.result && w == s.w && gc.userData == old(gc.userData) + s.handed
    ensures !autodelete ==> gc.userData == old(gc.userData)
  {
    result, w, cancelled := x, w0, false;
    var r0 := x;
    var it := 0;
    ghost var s := Loop(x, x, w0, []);
    while it < |units|
      invariant 0 <= it <= |units|
      invariant forall i | 0 <= i < it :: !cancelSeen[i]
      invariant s == AfterUnits(x, w0, units[..it], mode, autodelete)
      invariant s.result == result && s.r0 == r0 && s.w == w
      invariant gc.userData == old(gc.userData) + s.handed
      invariant !autodelete ==> s.handed == []
    {
      assert units[..it + 1][..it] == units[..it];
      result, r0, w, s := RunUnit(units[it], mode, r0, w, autodelete, gc, s, old(gc.userData));
      it := it + 1;
      if cancelSeen[it - 1] {
        cancelled := true;
        break;
      }
    }
    UnitsRunIs(cancelSeen, it);
    assert units[..|units|] == units;
  }

  lemma UnitsRunIs(cancelSeen: seq<bool>, n: nat)
    requires n <= |cancelSeen|
    requires forall i | 0 <= i < n - 1 :: !cancelSeen[i]
    requires n < |cancelSeen| ==> n > 0 && cancelSeen[n - 1]
    ensures UnitsRun(cancelSeen) == n
  {
  }

  // ---- when the loop composes ----

  const IDENTITY := Routine((x: Ptr, w: World) => (x, w))

  const CLEAR := Routine((x: Ptr, w: World) => (Null, w))

  function CallsPerUnit(mode: Mode): (n: nat) {
    if mode.MethodOnly? || mode.LambdaOnly? then 1 else 2
  }

  /** `n` units whose first call returns null and whose other calls return their argument. */
  function ClearThenIdentities(n: nat, mode: Mode): (units: seq<ExecUnit>) {
    seq(n, i => if i > 0 then ExecUnit(IDENTITY, IDENTITY)
                else if mode.LambdaOnly? || mode.LambdaThenMethod? then ExecUnit(CLEAR, IDENTITY)
                else ExecUnit(IDENTITY, CLEAR))
  }

  /** The routines of a list are well behaved. */
  ghost predicate AllWellBehaved(units: seq<ExecUnit>, mode: Mode) {
    forall f | f in AllCalls(units, mode) :: WellBehaved(f)
  }

  lemma {:induction false} ClearBehavesWell(n: nat, mode: Mode)
    ensures AllWellBehaved(ClearThenIdentities(n, mode), mode)
  {
    if n > 0 {
      ClearBehavesWell(n - 1, mode);
      assert ClearThenIdentities(n, mode)[..n - 1] == ClearThenIdentities(n - 1, mode);
      assert WellBehaved(IDENTITY) && WellBehaved(CLEAR);
    }
  }

  /** With autodelete the null goes through; without it the last identity is given the item again. */
  lemma {:induction false} ClearThenIdentitiesGive(n: nat, mode: Mode, x: Ptr, w: World)
    requires n > 0
    ensures var s := AfterUnits(x, w, ClearThenIdentities(n, mode), mode, true);
            s.result == Null && s.r0 == Null && s.w == w
    ensures var s := AfterUnits(x, w, ClearThenIdentities(n, mode), mode, false);
            s.r0 == x && s.w == w && (n * CallsPerUnit(mode) > 1 ==> s.result == x)
  {
    var units := ClearThenIdentities(n, mode);
    if n > 1 {
      ClearThenIdentitiesGive(n - 1, mode, x, w);
      assert units[..n - 1] == ClearThenIdentities(n - 1, mode);
    } else {
      assert units[..0] == [];
    }
  }

  /** What the loop leaves for an item is the composition of the calls. */
  ghost predicate ComputesComposition(x: Ptr, w: World, units: seq<ExecUnit>, mode: Mode, autodelete: bool) {
    var s := AfterUnits(x, w, units, mode, autodelete);
    (s.result, s.w) == Compose(AllCalls(units, mode), x, w)
  }

  /** A single call at most is a composition in any case. */
  lemma OneCallComposes(x: Ptr, w: World, units: seq<ExecUnit>, mode: Mode)
    requires |units| * CallsPerUnit(mode) <= 1
    ensures ComputesComposition(x, w, units, mode, false)
  {
    if units != [] {
      assert |units| == 1 && units[..0] == [];
      var f := CallsOf(units[0], mode)[0];
      var (y, w1) := Call(f, x, w);
      assert AllCalls(units, mode) == [f];
      assert [f][1..] == [] && Compose([], y, w1) == (y, w1);
    }
  }

  /** For lists of `n` units of well-behaved routines, applied to existing items, the loop computes the
    * composition always if and only if autodelete is on or at most one call is made. The methods of the
    * units are arbitrary here. */
  lemma ComposesIff(n: nat, mode: Mode, autodelete: bool)
    ensures (forall units, x: Ptr, w: World
               | |units| == n && AllWellBehaved(units, mode) && (x.Obj? ==> x.id < w.next) ::
               ComputesComposition(x, w, units, mode, autodelete))
       <==> autodelete || n * CallsPerUnit(mode) <= 1
  {
    if autodelete || n * CallsPerUnit(mode) <= 1 {
      forall units, x: Ptr, w: World | |units| == n
        ensures ComputesComposition(x, w, units, mode, autodelete)
      {
        if autodelete {
          LoopComputes(x, w, units, mode, true);
        } else {
          OneCallComposes(x, w, units, mode);
        }
      }
    } else {
      NotComposed(n, mode);
      assert !ComputesComposition(Obj(0), World(1, 0), ClearThenIdentities(n, mode), mode, autodelete);
    }
  }

  /** A list that is not composed, on an existing item. */
  lemma NotComposed(n: nat, mode: Mode)
    requires n * CallsPerUnit(mode) > 1
    ensures var units := ClearThenIdentities(n, mode);
            && |units| == n && AllWellBehaved(units, mode)
            && !ComputesComposition(Obj(0), World(1, 0), units, mode, false)
  {
    var units, w := ClearThenIdentities(n, mode), World(1, 0);
    ClearBehavesWell(n, mode);
    ClearThenIdentitiesGive(n, mode, Obj(0), w);
    LoopComputes(Obj(0), w, units, mode, true);
  }

  // ---- the units a session can hold ----

  /** A session stores its units by value, as the base type, whose method returns null. */
  ghost predicate BaseMethods(units: seq<ExecUnit>) {
    forall i | 0 <= i < |units| :: units[i].runM == CLEAR
  }

  /** A lambda that forgets its argument and counts the calls with an item. */
  const FORGET := Routine((x: Ptr, w: World) => (Null, World(w.next, if x == Null then w.rest else w.rest + 1)))

  function Forgetting(n: nat): (units: seq<ExecUnit>) { seq(n, _ => ExecUnit(FORGET, CLEAR)) }

  lemma {:induction false} ForgettingBehavesWell(n: nat, mode: Mode)
    ensures AllWellBehaved(Forgetting(n), mode)
  {
    if n > 0 {
      ForgettingBehavesWell(n - 1, mode);
      assert Forgetting(n)[..n - 1] == Forgetting(n - 1);
      assert WellBehaved(FORGET) && WellBehaved(CLEAR);
    }
  }

  /** With autodelete only the first lambda is given the item, and none if a method comes before it;
    * without it every lambda is. */
  lemma {:induction false} ForgettingGives(n: nat, mode: Mode, x: Ptr, w: World)
    requires n > 0 && x != Null && !mode.MethodOnly?
    ensures var s := AfterUnits(x, w, Forgetting(n), mode, true);
            s.r0 == Null && s.w == World(w.next, if mode.MethodThenLambda? then w.rest else w.rest + 1)
    ensures var s := AfterUnits(x, w, Forgetting(n), mode, false);
            s.r0 == x && s.w == World(w.next, w.rest + n)
  {
    var units := Forgetting(n);
    if n > 1 {
      ForgettingGives(n - 1, mode, x, w);
      assert units[..n - 1] == Forgetting(n - 1);
    } else {
      assert units[..0] == [];
    }
  }

  /** Without autodelete the loop composes exactly where it does the same as with it. */
  lemma ComposesLikeAutodelete(x: Ptr, w: World, units: seq<ExecUnit>, mode: Mode)
    ensures var on, off := AfterUnits(x, w, units, mode, true), AfterUnits(x, w, units, mode, false);
            ComputesComposition(x, w, units, mode, false) <==> (off.result, off.w) == (on.result, on.w)
  {
    LoopComputes(x, w, units, mode, true);
  }

  lemma {:induction false} MethodsGiveNull(x: Ptr, w: World, units: seq<ExecUnit>, autodelete: bool)
    requires BaseMethods(units)
    ensures var s := AfterUnits(x, w, units, MethodOnly, autodelete);
            s.result == (if units == [] then x else Null) && s.w == w
  {
    if units != [] {
      MethodsGiveNull(x, w, units[..|units| - 1], autodelete);
    }
  }

  /** For how many units of base methods the loop composes without autodelete. */
  predicate ComposesWithout(n: nat, mode: Mode) {
    mode.MethodOnly? || n == 0 || (n == 1 && !mode.MethodThenLambda?)
  }

  lemma FewUnitsCompose(x: Ptr, w: World, units: seq<ExecUnit>, mode: Mode)
    requires BaseMethods(units) && ComposesWithout(|units|, mode)
    ensures ComputesComposition(x, w, units, mode, false)
  {
    ComposesLikeAutodelete(x, w, units, mode);
    if mode.MethodOnly? {
      MethodsGiveNull(x, w, units, true);
      MethodsGiveNull(x, w, units, false);
    } else if |units| == 1 {
      assert units[..0] == [];
    }
  }

  /** For lists of `n` units a session can hold, their lambdas being well behaved, applied to existing
    * items, the loop computes the composition, with what the calls do besides, always if and only if
    * autodelete is on, or only methods are run, or there is no unit, or there is one and its lambda is
    * not preceded by its method. */
  lemma StoredUnitsComposeIff(n: nat, mode: Mode, autodelete: bool)
    ensures (forall units, x: Ptr, w: World
               | |units| == n && BaseMethods(units) && AllWellBehaved(units, mode) && (x.Obj? ==> x.id < w.next) ::
               ComputesComposition(x, w, units, mode, autodelete))
       <==> autodelete || ComposesWithout(n, mode)
  {
    if autodelete || ComposesWithout(n, mode) {
      forall units, x: Ptr, w: World | |units| == n && BaseMethods(units)
        ensures ComputesComposition(x, w, units, mode, autodelete)
      {
        if autodelete {
          LoopComputes(x, w, units, mode, true);
        } else {
          FewUnitsCompose(x, w, units, mode);
        }
      }
    } else {
      StoredUnitsNotComposed(n, mode);
      assert !ComputesComposition(Obj(0), World(1, 0), Forgetting(n), mode, autodelete);
    }
  }

  /** A list a session can hold that is not composed, on an existing item. */
  lemma StoredUnitsNotComposed(n: nat, mode: Mode)
    requires !ComposesWithout(n, mode)
    ensures var units := Forgetting(n);
            && |units| == n && BaseMethods(units) && AllWellBehaved(units, mode)
            && !ComputesComposition(Obj(0), World(1, 0), units, mode, false)
  {
    ForgettingBehavesWell(n, mode);
    ForgettingGives(n, mode, Obj(0), World(1, 0));
    ComposesLikeAutodelete(Obj(0), World(1, 0), Forgetting(n), mode);
  }

  // ---- one item from start to end ----

  /** How the processing of an item ends: cut short by a cancellation, flushed away after the
    * routines, or carried through to the summary. */
  datatype Ending = WasCancelled | WasFlushed | Finished

  /** What the summary returns, if there is one and it is reached, and the world after it. After a
    * flush it gets null when autodelete has taken the result away. */
  function Summed(result: Ptr, w: World, ending: Ending, summary: Option<Routine>, autodelete: bool)
    : (r: (Option<Ptr>, World))
  {
    if ending == WasCancelled || summary.None? then (None, w)
    else
      var (y, w') := Call(summary.value, if ending == WasFlushed && autodelete then Null else result, w);
      (Some(y), w')
  }

  /** What the end of an item sends to the collector before a flush empties the queues, and after. */
  function HandedAtEnd(result: Ptr, ending: Ending, y: Option<Ptr>, autodelete: bool): (r: (seq<Ptr>, seq<Ptr>)) {
    if !autodelete then ([], [])
    else match ending
      case WasCancelled => (One(result), [])
      case WasFlushed => (One(result), if y.Some? then One(y.value) else [])
      case Finished => (One(result) + (if y.Some? && y.value != result then One(y.value) else []), [])
  }

  /** What the collector holds at the end of an item, from what it held before, in the order of the
    * hand-overs on each path; `queued` is what a flush takes away. */
  lemma EndHands(before: seq<Ptr>, result: Ptr, ending: Ending, y: Option<Ptr>, autodelete: bool, queued: seq<Ptr>)
    ensures var (now, later) := HandedAtEnd(result, ending, y, autodelete);
            var all := before + now + (if autodelete && !ending.Finished? then queued else []) + later;
            var flushed := before + (if autodelete then One(result) else []) + (if autodelete then queued else []);
            match ending
            case WasCancelled => all == flushed
            case WasFlushed =>
              all == flushed + HandedAtEnd(if autodelete then Null else result, Finished, y, autodelete).0
            case Finished => all == before + HandedAtEnd(result, Finished, y, autodelete).0
  {
  }

  /** With autodelete on and well-behaved routines and summary, however the processing of an item
    * ends, each non-null object produced for it goes to the collector exactly once, and nothing
    * else does. */
  lemma ItemHandedOverOnce(x: Ptr, w: World, units: seq<ExecUnit>, mode: Mode, ending: Ending,
                           summary: Option<Routine>)
    requires forall f | f in AllCalls(units, mode) :: WellBehaved(f)
    requires summary.Some? ==> WellBehaved(summary.value)
    requires x.Obj? ==> x.id < w.next
    ensures var s := AfterUnits(x, w, units, mode, true);
            var y := Summed(s.result, s.w, ending, summary, true).0;
            var (before, after) := HandedAtEnd(s.result, ending, y, true);
            EachOnce(Trail(AllCalls(units, mode), x, w).0 + (if y.Some? then [y.value] else []),
                     s.handed + before + after)
  {
    var calls := AllCalls(units, mode);
    var s := AfterUnits(x, w, units, mode, true);
    var (t, w1) := Trail(calls, x, w);
    UnitsMeaning(x, w, units, mode, true);
    LoopComputes(x, w, units, mode, true);
    TrailEachOnce(calls, x, w);
    EndHandedOverOnce(t, w1, s.handed, ending, summary);
  }

  lemma EndHandedOverOnce(t: seq<Ptr>, w: World, handed: seq<Ptr>, ending: Ending, summary: Option<Routine>)
    requires t != [] && ExistsBefore(t, w.next) && EachOnce(t, Appearing(t))
    requires handed + One(Last(t)) == Appearing(t)
    requires summary.Some? ==> WellBehaved(summary.value)
    ensures var y := Summed(Last(t), w, ending, summary, true).0;
            var (before, after) := HandedAtEnd(Last(t), ending, y, true);
            EachOnce(t + (if y.Some? then [y.value] else []), handed + before + after)
  {
    var y := Summed(Last(t), w, ending, summary, true).0;
    var (before, after) := HandedAtEnd(Last(t), ending, y, true);
    if y.None? {
      assert t + [] == t;
      assert handed + before + after == Appearing(t);
    } else {
      var arg := if ending == WasFlushed then Null else Last(t);
      var (p, w2) := Call(summary.value, arg, w);
      assert WellBehaved(summary.value) && GoodResult(arg, w, p, w2);
      OneMoreOnce(t, w.next, p, w2.next);
      AppearingSnoc(t, p);
      assert handed + before + after == Appearing(t) + (if p != Last(t) then One(p) else []);
    }
  }

  // ---- all items of a queue ----

  /** What is applied to every item. */
  datatype Program = Program(units: seq<ExecUnit>, mode: Mode, summary: Option<Routine>, autodelete: bool)

  /** Processing one item without interruption: what goes to the collector, and the world after. */
  function ProcessOne(x: Ptr, w: World, p: Program): (r: (seq<Ptr>, World)) {
    var s := AfterUnits(x, w, p.units, p.mode, p.autodelete);
    var (y, w') := Summed(s.result, s.w, Finished, p.summary, p.autodelete);
    (s.handed + HandedAtEnd(s.result, Finished, y, p.autodelete).0, w')
  }

  /** Processing items one after the other. */
  function ProcessAll(items: seq<Ptr>, w: World, p: Program): (r: (seq<Ptr>, World))
    decreases |items|
  {
    if items == [] then ([], w)
    else
      var (handed, w1) := ProcessOne(items[0], w, p);
      var (rest, w2) := ProcessAll(items[1..], w1, p);
      (handed + rest, w2)
  }

  /** With autodelete the summary belongs to the composition: it gets the composition's result, what it
    * returns is the composition with it as the last routine, and so is the world after. */
  lemma SummaryEndsComposition(x: Ptr, w: World, p: Program)
    requires p.autodelete
    ensures p.summary.None? ==> ProcessOne(x, w, p).1 == Compose(AllCalls(p.units, p.mode), x, w).1
    ensures p.summary.Some? ==>
              var all := Compose(AllCalls(p.units, p.mode) + [p.summary.value], x, w);
              var s := AfterUnits(x, w, p.units, p.mode, true);
              && ProcessOne(x, w, p).1 == all.1
              && Summed(s.result, s.w, Finished, p.summary, true) == (Some(all.0), all.1)
  {
    LoopComputes(x, w, p.units, p.mode, true);
    if p.summary.Some? {
      ComposeJoins(AllCalls(p.units, p.mode), [p.summary.value], x, w);
      var (y, w1) := Compose(AllCalls(p.units, p.mode), x, w);
      ComposeJoins([], [], y, w1);
    }
  }

  /** Without autodelete the summary gets the last answer for the original item, and nothing at all is
    * handed to the collector, for one item and for many. */
  lemma WithoutAutodelete(x: Ptr, w: World, p: Program)
    requires !p.autodelete
    ensures var (y, w1) := LastAlone(AllCalls(p.units, p.mode), x, w);
            var s := AfterUnits(x, w, p.units, p.mode, false);
            if p.summary.None? then ProcessOne(x, w, p) == ([], w1)
            else
              && ProcessOne(x, w, p) == ([], Call(p.summary.value, y, w1).1)
              && Summed(s.result, s.w, Finished, p.summary, false).0 == Some(Call(p.summary.value, y, w1).0)
  {
    LoopComputes(x, w, p.units, p.mode, false);
    var s := AfterUnits(x, w, p.units, p.mode, false);
    var y := Summed(s.result, s.w, Finished, p.summary, false).0;
    assert s.handed + HandedAtEnd(s.result, Finished, y, false).0 == [];
  }

  lemma {:induction false} NothingHandedWithout(items: seq<Ptr>, w: World, p: Program)
    requires !p.autodelete
    ensures ProcessAll(items, w, p).0 == []
    decreases |items|
  {
    if items != [] {
      WithoutAutodelete(items[0], w, p);
      NothingHandedWithout(items[1..], ProcessOne(items[0], w, p).1, p);
    }
  }

  /** Items are processed in order: a list after another, and a single one as it is. */
  lemma {:induction false} ProcessAllJoins(first: seq<Ptr>, second: seq<Ptr>, w: World, p: Program)
    ensures forall x :: ProcessAll([x], w, p) == ProcessOne(x, w, p)
    ensures var (handed, w1) := ProcessAll(first, w, p);
            var (rest, w2) := ProcessAll(second, w1, p);
            ProcessAll(first + second, w, p) == (handed + rest, w2)
    decreases |first|
  {
    forall x
      ensures ProcessAll([x], w, p) == ProcessOne(x, w, p)
    {
      assert [x][1..] == [];
      assert ProcessOne(x, w, p).0 + [] == ProcessOne(x, w, p).0;
    }
    if first == [] {
      assert first + second == second;
      assert [] + ProcessAll(second, w, p).0 == ProcessAll(second, w, p).0;
    } else {
      var (handed, w1) := ProcessOne(first[0], w, p);
      ProcessAllJoins(first[1..], second, w1, p);
      assert (first + second)[1..] == first[1..] + second;
      var (more, w2) := ProcessAll(first[1..], w1, p);
      assert handed + (more + ProcessAll(second, w2, p).0) == (handed + more) + ProcessAll(second, w2, p).0;
    }
  }

  /** `done` has been handed over so far and `rest` is still to be processed from world `w`. */
  ghost predicate Tally(items: seq<Ptr>, w0: World, p: Program, done: seq<Ptr>, rest: seq<Ptr>, w: World) {
    var (handed, w') := ProcessAll(rest, w, p);
    ProcessAll(items, w0, p) == (done + handed, w')
  }

  lemma TallyStart(items: seq<Ptr>, w: World, p: Program)
    ensures Tally(items, w, p, [], items, w)
  {
    assert [] + ProcessAll(items, w, p).0 == ProcessAll(items, w, p).0;
  }

  lemma TallyStep(items: seq<Ptr>, w0: World, p: Program, done: seq<Ptr>, rest: seq<Ptr>, w: World)
    requires Tally(items, w0, p, done, rest, w) && rest != []
    ensures var (handed, w1) := ProcessOne(rest[0], w, p);
            Tally(items, w0, p, done + handed, rest[1..], w1)
  {
    var (handed, w1) := ProcessOne(rest[0], w, p);
    var (later, _) := ProcessAll(rest[1..], w1, p);
    assert done + (handed + later) == (done + handed) + later;
  }

  lemma TallyEnd(items: seq<Ptr>, w0: World, p: Program, done: seq<Ptr>, w: World)
    requires Tally(items, w0, p, done, [], w)
    ensures ProcessAll(items, w0, p) == (done, w)
  {
    assert done + [] == done;
  }
}
