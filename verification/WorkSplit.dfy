/** How session slots are divided among workers. */
module WorkSplit {
  import opened Sequences

  datatype Range = Range(lowBound: int, length: int)

  datatype Config = Config(share: int, residue: int, actual: int, required: int)

  /** What worker `p` of `actual` gets out of `required` slots. */
  function RangeOf(p: nat, required: nat, actual: nat): (r: Range)
    requires p < actual
  {
    if required == 0 then Range(0, 0)
    else if required < actual then Range(p % required, 1)
    else
      var share, residue := required / actual, required % actual;
      Range(p * share + Min(p, residue), if p < residue then share + 1 else share)
  }

  function Layout(required: nat, actual: nat): (bounds: seq<Range>)
  {
    seq(actual, p requires 0 <= p < actual => RangeOf(p, required, actual))
  }

  predicate Serves(r: Range, slot: int) {
    r.lowBound <= slot < r.lowBound + r.length
  }

  /** The number of workers a slot is assigned to. */
  function Servers(bounds: seq<Range>, slot: int): (n: nat) {
    if bounds == [] then 0
    else Servers(bounds[..|bounds| - 1], slot) + (if Serves(bounds[|bounds| - 1], slot) then 1 else 0)
  }

  lemma DivModNext(n: nat, d: nat)
    requires d > 0
    ensures (n + 1) % d == (if n % d == d - 1 then 0 else n % d + 1)
    ensures (n + 1) / d == (if n % d == d - 1 then n / d + 1 else n / d)
  {
    var q, m := n / d, n % d;
    assert n == q * d + m;
    if m == d - 1 {
      assert n + 1 == (q + 1) * d;
      DivModUnique(n + 1, d, q + 1, 0);
    } else {
      DivModUnique(n + 1, d, q, m + 1);
    }
  }

  lemma DivModUnique(n: nat, d: nat, q: nat, m: nat)
    requires 0 <= m < d && n == q * d + m
    ensures n / d == q && n % d == m
  {
    var k := n / d - q;
    assert k * d == m - n % d by {
      assert (n / d) * d + n % d == n;
      assert k * d == (n / d) * d - q * d;
    }
    SmallMultiple(k, d);
  }

  lemma SmallMultiple(k: int, d: nat)
    ensures k > 0 ==> k * d >= d
    ensures k < 0 ==> k * d + d <= 0
  {
    if k > 0 {
      ProductNotNegative(k - 1, d);
      assert (k - 1) * d == k * d - d;
    } else if k < 0 {
      ProductNotNegative(-k - 1, d);
      assert (-k - 1) * d == -(k * d) - d;
    }
  }

  lemma ProductNotNegative(a: nat, b: nat)
    ensures a * b >= 0
  {
  }

  // ---- at least as many slots as workers ----

  lemma NextLowBound(p: nat, required: nat, actual: nat)
    requires required >= actual > 0 && p + 1 < actual
    ensures var r := RangeOf(p, required, actual);
            RangeOf(p + 1, required, actual).lowBound == r.lowBound + r.length
  {
    var share := required / actual;
    assert (p + 1) * share == p * share + share;
  }

  /** Neighbouring ranges touch, none is empty, lengths differ by at most one, and together they
    * span exactly the slots. */
  lemma {:induction false} PartitionIsContiguous(required: nat, actual: nat)
    requires required >= actual > 0
    ensures var b := Layout(required, actual);
            && b[0].lowBound == 0
            && (forall p | 0 <= p < actual - 1 :: b[p + 1].lowBound == b[p].lowBound + b[p].length)
            && b[actual - 1].lowBound + b[actual - 1].length == required
            && (forall p | 0 <= p < actual :: b[p].length >= 1)
            && (forall p, q | 0 <= p < actual && 0 <= q < actual :: b[p].length <= b[q].length + 1)
  {
    var share, residue := required / actual, required % actual;
    assert share >= 1 by {
      assert required == share * actual + residue;
    }
    forall p | 0 <= p < actual - 1
      ensures RangeOf(p + 1, required, actual).lowBound
           == RangeOf(p, required, actual).lowBound + RangeOf(p, required, actual).length
    {
      NextLowBound(p, required, actual);
    }
    assert (actual - 1) * share + share == actual * share;
  }

  lemma {:induction false} ServersOfPrefix(required: nat, actual: nat, p: nat, slot: nat)
    requires required >= actual > 0 && p <= actual
    ensures Servers(Layout(required, actual)[..p], slot)
         == (if slot < (if p < actual then RangeOf(p, required, actual).lowBound else required) then 1 else 0)
  {
    var b := Layout(required, actual);
    PartitionIsContiguous(required, actual);
    if p > 0 {
      ServersOfPrefix(required, actual, p - 1, slot);
      assert b[..p][..p - 1] == b[..p - 1];
      assert b[p - 1].length >= 1;
      if p < actual {
        assert b[(p - 1) + 1].lowBound == b[p - 1].lowBound + b[p - 1].length;
      }
    }
  }

  /** Every slot goes to exactly one worker. */
  lemma EverySlotServedOnce(required: nat, actual: nat, slot: nat)
    requires required >= actual > 0
    ensures Servers(Layout(required, actual), slot) == (if slot < required then 1 else 0)
  {
    ServersOfPrefix(required, actual, actual, slot);
    var b := Layout(required, actual);
    assert b[..actual] == b;
  }

  /** The earlier workers get the longer ranges. */
  lemma LongerFirst(required: nat, actual: nat, p: nat, q: nat)
    requires required >= actual > 0 && p <= q < actual
    ensures Layout(required, actual)[p].length >= Layout(required, actual)[q].length
  {
  }

  /** A division of `required` slots among all workers: the ranges follow each other, their lengths
    * differ by at most one, and the earlier ones are not shorter. */
  ghost predicate IsDivision(b: seq<Range>, required: nat, actual: nat) {
    && |b| == actual > 0
    && b[0].lowBound == 0
    && (forall p | 0 <= p < actual - 1 :: b[p + 1].lowBound == b[p].lowBound + b[p].length)
    && b[actual - 1].lowBound + b[actual - 1].length == required
    && (forall p, q | 0 <= p < actual && 0 <= q < actual :: b[p].length <= b[q].length + 1)
    && (forall p, q | 0 <= p <= q < actual :: b[p].length >= b[q].length)
  }

  /** The first `k` of `n` ranges are one longer than the others. */
  ghost predicate LongThenShort(b: seq<Range>, n: nat, k: nat, short: int)
    requires n <= |b|
  {
    k <= n && forall p | 0 <= p < n :: b[p].length == if p < k then short + 1 else short
  }

  lemma {:induction false} FindLong(b: seq<Range>, n: nat, short: int) returns (k: nat)
    requires n <= |b|
    requires forall p | 0 <= p < n :: short <= b[p].length <= short + 1
    requires forall p, q | 0 <= p <= q < n :: b[p].length >= b[q].length
    ensures LongThenShort(b, n, k, short)
  {
    if n == 0 {
      k := 0;
    } else if b[n - 1].length == short + 1 {
      k := n;
      assert forall p | 0 <= p < n :: b[p].length >= b[n - 1].length;
    } else {
      k := FindLong(b, n - 1, short);
    }
  }

  lemma {:induction false} LowBoundIs(b: seq<Range>, required: nat, actual: nat, k: nat, short: int, p: nat)
    requires IsDivision(b, required, actual) && LongThenShort(b, actual, k, short) && p < actual
    ensures b[p].lowBound == p * short + Min(p, k)
  {
    if p > 0 {
      LowBoundIs(b, required, actual, k, short, p - 1);
      assert b[(p - 1) + 1].lowBound == b[p - 1].lowBound + b[p - 1].length;
      assert p * short == (p - 1) * short + short;
    }
  }

  /** There is only one such division, the one in the layout. */
  lemma DivisionIsLayout(b: seq<Range>, required: nat, actual: nat)
    requires IsDivision(b, required, actual) && required >= actual
    ensures b == Layout(required, actual)
  {
    var short := b[actual - 1].length;
    var k := FindLong(b, actual, short);
    assert b[actual - 1].length == short;
    assert k < actual;
    LowBoundIs(b, required, actual, k, short, actual - 1);
    assert required == actual * short + k by {
      assert (actual - 1) * short + short == actual * short;
    }
    DivModUnique(required, actual, short, k);
    forall p | 0 <= p < actual
      ensures b[p] == RangeOf(p, required, actual)
    {
      LowBoundIs(b, required, actual, k, short, p);
    }
  }

  /** The layout is a division, and the only one. */
  lemma LayoutIsTheDivision(b: seq<Range>, required: nat, actual: nat)
    requires required >= actual > 0
    ensures IsDivision(b, required, actual) <==> b == Layout(required, actual)
  {
    if b == Layout(required, actual) {
      PartitionIsContiguous(required, actual);
    } else if IsDivision(b, required, actual) {
      DivisionIsLayout(b, required, actual);
    }
  }

  // ---- fewer slots than workers ----

  lemma ModMinus(p: nat, d: nat)
    requires p >= d > 0
    ensures (p - d) % d == p % d
  {
    var q, m := p / d, p % d;
    assert p == q * d + m;
    assert (q - 1) * d == q * d - d;
    assert q >= 1;
    DivModUnique(p - d, d, q - 1, m);
  }

  /** The first workers take the slots in order, and every later worker the slot of the one that comes as
    * many places before it as there are slots; without slots nobody has anything. */
  lemma WorkersCycle(required: nat, actual: nat, p: nat)
    requires required < actual && p < actual
    ensures var b := Layout(required, actual);
            if required == 0 then b[p].length == 0
            else b[p] == (if p < required then Range(p, 1) else b[p - required])
  {
    if required > 0 {
      if p < required {
        DivModUnique(p, required, 0, p);
      } else {
        ModMinus(p, required);
      }
    }
  }

  lemma {:induction false} ServersOfCycle(required: nat, actual: nat, p: nat, slot: nat)
    requires 0 < required < actual && p <= actual && slot < required
    ensures Servers(Layout(required, actual)[..p], slot)
         == p / required + (if slot < p % required then 1 else 0)
  {
    var b := Layout(required, actual);
    if p > 0 {
      ServersOfCycle(required, actual, p - 1, slot);
      assert b[..p][..p - 1] == b[..p - 1];
      DivModNext(p - 1, required);
    }
  }

  /** Workers spread over the slots as evenly as possible. */
  lemma {:induction false} WorkersSpreadEvenly(required: nat, actual: nat, slot: nat)
    requires 0 < required < actual
    ensures Servers(Layout(required, actual), slot)
         == if slot >= required then 0
            else if slot < actual % required then actual / required + 1
            else actual / required
  {
    var b := Layout(required, actual);
    assert b[..actual] == b;
    if slot < required {
      ServersOfCycle(required, actual, actual, slot);
    } else {
      NobodyBeyond(required, actual, actual, slot);
    }
  }

  lemma {:induction false} NobodyBeyond(required: nat, actual: nat, p: nat, slot: nat)
    requires 0 < required < actual && p <= actual && slot >= required
    ensures Servers(Layout(required, actual)[..p], slot) == 0
  {
    if p > 0 {
      var b := Layout(required, actual);
      NobodyBeyond(required, actual, p - 1, slot);
      assert b[..p][..p - 1] == b[..p - 1];
    }
  }

  // ---- successive calls ----

  /** What is kept between calls: the size recorded last and the ranges installed last. */
  datatype Plan = Plan(recorded: nat, bounds: seq<Range>)

  /** One call on a fresh copy of the configuration: the ranges are computed from the size in the
    * copy, the new size is only recorded. */
  function Call(plan: Plan, size: nat, actual: nat): (plan': Plan) {
    Plan(size, Layout(plan.recorded, actual))
  }

  function Calls(plan: Plan, sizes: seq<nat>, actual: nat): (plan': Plan) {
    if sizes == [] then plan
    else Call(Calls(plan, sizes[..|sizes| - 1], actual), sizes[|sizes| - 1], actual)
  }

  lemma OneOrTwoCalls(plan: Plan, size: nat, next: nat, actual: nat)
    ensures Calls(plan, [size], actual) == Call(plan, size, actual)
    ensures Calls(plan, [size] + [next], actual) == Call(Call(plan, size, actual), next, actual)
  {
    assert [size][..0] == [];
    assert ([size] + [next])[..1] == [size];
  }

  /** Every call installs the partition of the size given one call earlier. */
  lemma InstalledIsPrevious(plan: Plan, sizes: seq<nat>, actual: nat)
    requires sizes != []
    ensures Calls(plan, sizes, actual).bounds
         == Layout(if |sizes| == 1 then plan.recorded else sizes[|sizes| - 2], actual)
  {
    var before := sizes[..|sizes| - 1];
    if before != [] {
      assert Calls(plan, before, actual).recorded == before[|before| - 1];
    }
  }

  /** The partition in force after a call is the one for the size just given if and only if the call
    * before gave the same size. */
  lemma PartitionLagsOneCall(plan: Plan, sizes: seq<nat>, actual: nat)
    requires |sizes| >= 2 && actual > 0
    ensures Calls(plan, sizes, actual).bounds == Layout(sizes[|sizes| - 1], actual)
       <==> sizes[|sizes| - 1] == sizes[|sizes| - 2]
  {
    InstalledIsPrevious(plan, sizes, actual);
    var before, last := sizes[|sizes| - 2], sizes[|sizes| - 1];
    if before < last {
      LayoutsDiffer(before, last, actual);
    } else if last < before {
      LayoutsDiffer(last, before, actual);
    }
  }

  /** Different sizes have different partitions. */
  lemma LayoutsDiffer(a: nat, b: nat, actual: nat)
    requires a < b && actual > 0
    ensures Layout(a, actual) != Layout(b, actual)
  {
    var x, y := Layout(a, actual), Layout(b, actual);
    if a == 0 {
      assert x[0].length == 0;
      SomeWork(b, actual);
    } else if a < actual {
      assert x[a].lowBound == 0;
      LaterStartsLater(b, a, actual);
    } else {
      PartitionIsContiguous(a, actual);
      PartitionIsContiguous(b, actual);
      assert x[actual - 1].lowBound + x[actual - 1].length != y[actual - 1].lowBound + y[actual - 1].length;
    }
  }

  /** The first worker has something to do exactly when there is something to do. */
  lemma SomeWork(required: nat, actual: nat)
    requires actual > 0
    ensures Layout(required, actual)[0].length == 0 <==> required == 0
  {
    if required >= actual {
      PartitionIsContiguous(required, actual);
    }
  }

  /** Among more than `p` slots worker `p` does not start at the first. */
  lemma LaterStartsLater(required: nat, p: nat, actual: nat)
    requires 0 < p < actual && p < required
    ensures Layout(required, actual)[p].lowBound > 0
  {
    if required >= actual {
      LowBoundsGrow(required, p, actual);
    }
  }

  lemma {:induction false} LowBoundsGrow(required: nat, p: nat, actual: nat)
    requires required >= actual > p
    ensures Layout(required, actual)[p].lowBound >= p
  {
    var b := Layout(required, actual);
    PartitionIsContiguous(required, actual);
    if p > 0 {
      LowBoundsGrow(required, p - 1, actual);
      assert b[(p - 1) + 1].lowBound == b[p - 1].lowBound + b[p - 1].length;
    }
  }

  /** For two workers: one session, then two. The partition in force is still that for one, in which
    * nobody serves the second. */
  lemma SecondSlotUnserved(plan: Plan)
    ensures var bounds := Calls(plan, [1, 2], 2).bounds;
            bounds == Layout(1, 2) != Layout(2, 2) && Servers(bounds, 1) == 0 && Servers(Layout(2, 2), 1) == 1
  {
    InstalledIsPrevious(plan, [1, 2], 2);
    LayoutsDiffer(1, 2, 2);
    WorkersSpreadEvenly(1, 2, 1);
    EverySlotServedOnce(2, 2, 1);
  }

  /** The part of the pool's state that holds the ranges. */
  class Distributor {
    const numCPUs: nat
    var tpcfg: Config
    var vectProc2Bounds: seq<Range>

    ghost predicate Valid()
      reads this
    {
      numCPUs > 0 && tpcfg.actual == numCPUs && tpcfg.required >= 0
    }

    ghost function View(): (plan: Plan)
      reads this
      requires Valid()
    {
      Plan(tpcfg.required, vectProc2Bounds)
    }

    constructor (numProcs: nat)
      requires numProcs > 0
      ensures Valid() && numCPUs == numProcs
      ensures View() == Plan(numProcs, [])
    {
      numCPUs := numProcs;
      tpcfg := Config(numProcs / numProcs, numProcs % numProcs, numProcs, numProcs);
      vectProc2Bounds := [];
    }

    method ReassignProcs(config: Config, reqThreads: nat) returns (tpc: Config)
      requires Valid() && |vectProc2Bounds| == numCPUs && config.required >= 0
      modifies this
      ensures Valid()
      ensures View() == Plan(reqThreads, Layout(config.required, numCPUs))
      ensures tpc.actual == numCPUs && tpc.required == config.required
      ensures config.required >= numCPUs ==>
                tpc.share == config.required / numCPUs && tpc.residue == config.required % numCPUs
      ensures 0 < config.required < numCPUs ==>
                tpc.share == numCPUs / config.required && tpc.residue == numCPUs % config.required
    {
      tpc := config;
      tpcfg := tpcfg.(required := reqThreads);
      tpc := tpc.(actual := numCPUs);
      var proc := 0;
      if tpc.required == 0 {
        while proc < tpc.actual
          invariant 0 <= proc <= numCPUs && |vectProc2Bounds| == numCPUs
          invariant tpcfg == old(tpcfg).(required := reqThreads)
          invariant forall p | 0 <= p < proc :: vectProc2Bounds[p] == RangeOf(p, 0, numCPUs)
        {
          vectProc2Bounds := vectProc2Bounds[proc := Range(0, 0)];
          proc := proc + 1;
        }
        return;
      }
      if tpc.required < tpc.actual {
        tpc := tpc.(share := tpc.actual / tpc.required, residue := tpc.actual % tpc.required);
        while proc < tpc.actual
          invariant 0 <= proc <= numCPUs && |vectProc2Bounds| == numCPUs
          invariant tpcfg == old(tpcfg).(required := reqThreads)
          invariant forall p | 0 <= p < proc :: vectProc2Bounds[p] == RangeOf(p, tpc.required, numCPUs)
        {
          var tcr := vectProc2Bounds[proc];
          tcr := tcr.(length := 1);
          tcr := tcr.(lowBound := proc % tpc.required);
          vectProc2Bounds := vectProc2Bounds[proc := tcr];
          proc := proc + 1;
        }
      } else {
        tpc := tpc.(share := tpc.required / tpc.actual, residue := tpc.required % tpc.actual);
        var residue := tpc.residue;
        var lb := 0;
        while proc < tpc.actual
          invariant 0 <= proc <= numCPUs && |vectProc2Bounds| == numCPUs
          invariant tpcfg == old(tpcfg).(required := reqThreads)
          invariant residue == if proc < tpc.residue then tpc.residue - proc else 0
          invariant proc < numCPUs ==> lb == RangeOf(proc, tpc.required, numCPUs).lowBound
          invariant forall p | 0 <= p < proc :: vectProc2Bounds[p] == RangeOf(p, tpc.required, numCPUs)
        {
          if proc + 1 < numCPUs {
            NextLowBound(proc, tpc.required, numCPUs);
          }
          var tcr := Range(lb, tpc.share);
          if residue > 0 {
            tcr := tcr.(length := tcr.length + 1);
            residue := residue - 1;
          }
          lb := lb + tcr.length;
          vectProc2Bounds := vectProc2Bounds[proc := tcr];
          proc := proc + 1;
        }
      }
    }

    /** A worker's round: copy the configuration, fit the table to the number of workers, divide. */
    method Divide(sessions: nat)
      requires Valid()
      modifies this
      ensures Valid()
      ensures View() == Call(old(View()), sessions, numCPUs)
    {
      var tpc := tpcfg;
      if |vectProc2Bounds| != tpcfg.actual {
        vectProc2Bounds := seq(tpcfg.actual, _ => Range(0, 0));
      }
      tpc := ReassignProcs(tpc, sessions);
    }
  }
}
