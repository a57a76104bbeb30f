/** One FIFO and an owner: what every session queue is, seen from outside. */
module OwnedFifos {
  import opened Sequences

  /** `owner` is the id of the worker that reserved the queue, or negative. */
  datatype Fifo<T> = Fifo(items: seq<T>, owner: int)

  datatype Op<T> =
    | Cast(item: T)
    | CastVector(data: seq<T>)
    | Pull(id: int)
    | Unoccupy
    | UnoccupyWithId(id: int)

  function Empty<T>(): (f: Fifo<T>) { Fifo([], -1) }

  /** Nobody owns an empty queue. */
  ghost predicate WellOwned<T>(f: Fifo<T>) {
    f.items == [] ==> f.owner == -1
  }

  predicate Permitted<T>(f: Fifo<T>, id: int) {
    f.owner < 0 || f.owner == id
  }

  /** The item a pull by `id` delivers. */
  function Pulled<T>(f: Fifo<T>, id: int): (item: Option<T>) {
    if Permitted(f, id) && f.items != [] then Some(f.items[0]) else None
  }

  function AfterPull<T>(f: Fifo<T>, id: int): (f': Fifo<T>) {
    if !Permitted(f, id) then f
    else if |f.items| <= 1 then Fifo([], -1)
    else Fifo(f.items[1..], id)
  }

  /** A vector cast stores nothing: the operation it relies on is switched off. */
  function Step<T>(f: Fifo<T>, op: Op<T>): (f': Fifo<T>) {
    match op
    case Cast(x) => f.(items := f.items + [x])
    case CastVector(_) => f
    case Pull(id) => AfterPull(f, id)
    case Unoccupy => f.(owner := -1)
    case UnoccupyWithId(id) => if f.owner == id then f.(owner := -1) else f
  }

  function Run<T>(f: Fifo<T>, ops: seq<Op<T>>): (f': Fifo<T>) {
    if ops == [] then f else Step(Run(f, ops[..|ops| - 1]), ops[|ops| - 1])
  }

  /** Operation `i` of the run is a pull that delivers an item. */
  ghost predicate PullsAt<T>(f: Fifo<T>, ops: seq<Op<T>>, i: nat) {
    && i < |ops|
    && ops[i].Pull?
    && Pulled(Run(f, ops[..i]), ops[i].id).Some?
  }

  lemma {:induction false} RunKeepsWellOwned<T>(f: Fifo<T>, ops: seq<Op<T>>)
    requires WellOwned(f)
    ensures WellOwned(Run(f, ops))
  {
    if ops != [] {
      RunKeepsWellOwned(f, ops[..|ops| - 1]);
    }
  }

  lemma RunStep<T>(f: Fifo<T>, ops: seq<Op<T>>, i: nat)
    requires i < |ops|
    ensures Run(f, ops[..i + 1]) == Step(Run(f, ops[..i]), ops[i])
  {
    assert ops[..i + 1][..i] == ops[..i];
  }

  /** After a successful pull by `a` that leaves items behind, and as long as nobody gives the
    * queue back and nobody else's pull succeeds, `a` keeps it and items stay in it. */
  lemma {:induction false} OwnershipLasts<T>(f: Fifo<T>, ops: seq<Op<T>>, i: nat, k: nat)
    requires i < k <= |ops|
    requires WellOwned(f)
    requires PullsAt(f, ops, i) && ops[i].id >= 0
    requires Run(f, ops[..i + 1]).items != []
    requires forall j | i < j < k :: !PullsAt(f, ops, j)
    requires forall j | i < j < k :: !ops[j].Unoccupy? && !ops[j].UnoccupyWithId?
    ensures Run(f, ops[..k]).owner == ops[i].id && Run(f, ops[..k]).items != []
  {
    if k == i + 1 {
      RunStep(f, ops, i);
    } else {
      OwnershipLasts(f, ops, i, k - 1);
      RunStep(f, ops, k - 1);
      assert !PullsAt(f, ops, k - 1);
    }
  }

  /** Two consecutive successful pulls by different workers: either the first one emptied the
    * queue, or the queue was given back in between. */
  lemma OwnershipChanges<T>(f: Fifo<T>, ops: seq<Op<T>>, i: nat, j: nat)
    requires WellOwned(f)
    requires i < j
    requires PullsAt(f, ops, i) && PullsAt(f, ops, j)
    requires forall k | i < k < j :: !PullsAt(f, ops, k)
    requires ops[i].id >= 0 && ops[j].id != ops[i].id
    ensures || Run(f, ops[..i + 1]).items == []
            || exists k | i < k < j :: ops[k].Unoccupy? || ops[k].UnoccupyWithId?
  {
    if && Run(f, ops[..i + 1]).items != []
       && forall k | i < k < j :: !ops[k].Unoccupy? && !ops[k].UnoccupyWithId?
    {
      OwnershipLasts(f, ops, i, j);
    }
  }

  // ---- who can pull ----

  /** Operation `j` gives back what worker `a` holds. */
  predicate GivesBack<T>(op: Op<T>, a: int) {
    op.Unoccupy? || (op.UnoccupyWithId? && op.id == a)
  }

  /** Worker `a` made the last successful pull, at operation `i`, left items behind, and the queue has
    * not been given back since. */
  ghost predicate HoldsSince<T>(ops: seq<Op<T>>, i: nat, a: int) {
    && PullsAt(Empty(), ops, i) && ops[i].id == a
    && Run(Empty(), ops[..i + 1]).items != []
    && Undisturbed(ops, i, a)
  }

  ghost predicate Undisturbed<T>(ops: seq<Op<T>>, i: nat, a: int) {
    forall j | i < j < |ops| :: !PullsAt(Empty(), ops, j) && !GivesBack(ops[j], a)
  }

  ghost predicate Holds<T>(ops: seq<Op<T>>, a: int) {
    exists i: nat :: HoldsSince(ops, i, a)
  }

  lemma SamePulls<T>(ops: seq<Op<T>>, i: nat)
    requires i < |ops| - 1
    ensures PullsAt(Empty(), ops, i) == PullsAt(Empty(), ops[..|ops| - 1], i)
    ensures ops[..i + 1] == ops[..|ops| - 1][..i + 1]
  {
    assert ops[..|ops| - 1][..i] == ops[..i];
  }

  lemma UndisturbedNext<T>(ops: seq<Op<T>>, i: nat, a: int)
    requires i < |ops| - 1
    ensures var k := |ops| - 1;
            Undisturbed(ops, i, a) <==>
              Undisturbed(ops[..k], i, a) && !PullsAt(Empty(), ops, k) && !GivesBack(ops[k], a)
  {
    var k := |ops| - 1;
    forall j | i < j < k
      ensures PullsAt(Empty(), ops, j) == PullsAt(Empty(), ops[..k], j)
    {
      SamePulls(ops, j);
    }
    assert forall j | i < j < k :: ops[..k][j] == ops[j];
  }

  lemma HoldsSinceNext<T>(ops: seq<Op<T>>, i: nat, a: int)
    requires ops != []
    ensures var k := |ops| - 1;
            HoldsSince(ops, i, a) <==>
              if i == k then PullsAt(Empty(), ops, k) && ops[k].id == a && Run(Empty(), ops).items != []
              else HoldsSince(ops[..k], i, a) && !PullsAt(Empty(), ops, k) && !GivesBack(ops[k], a)
  {
    var k := |ops| - 1;
    assert ops[..k + 1] == ops;
    if i < k {
      UndisturbedNext(ops, i, a);
      SamePulls(ops, i);
    }
  }

  lemma HoldsNext<T>(ops: seq<Op<T>>, a: int)
    requires ops != []
    ensures var k := |ops| - 1;
            Holds(ops, a) <==>
              if PullsAt(Empty(), ops, k) then ops[k].id == a && Run(Empty(), ops).items != []
              else Holds(ops[..k], a) && !GivesBack(ops[k], a)
  {
    var k := |ops| - 1;
    HoldsSinceNext(ops, k, a);
    if i: nat :| HoldsSince(ops, i, a) {
      HoldsSinceNext(ops, i, a);
    }
    if i: nat :| HoldsSince(ops[..k], i, a) {
      HoldsSinceNext(ops, i, a);
    }
  }

  /** In every run of a new queue the owner is the worker that holds the queue, and the queue has no
    * owner when nobody does. */
  lemma {:induction false} OwnerHolds<T>(ops: seq<Op<T>>, a: int)
    requires a >= 0
    ensures Run(Empty<T>(), ops).owner == a <==> Holds(ops, a)
  {
    if ops == [] {
      assert forall i: nat :: !HoldsSince(ops, i, a);
    } else {
      var k := |ops| - 1;
      RunKeepsWellOwned(Empty<T>(), ops[..k]);
      OwnerHolds(ops[..k], a);
      HoldsNext(ops, a);
      assert PullsAt(Empty(), ops, k) <==> ops[k].Pull? && Pulled(Run(Empty(), ops[..k]), ops[k].id).Some?;
    }
  }

  /** A pull delivers exactly when the queue is not empty and nobody else holds it, and then the oldest
    * item. */
  lemma PullSucceedsIff<T>(ops: seq<Op<T>>, id: int)
    ensures var f := Run(Empty<T>(), ops);
            && (Pulled(f, id).Some? <==> f.items != [] && forall a | a >= 0 && Holds(ops, a) :: a == id)
            && (Pulled(f, id).Some? ==> Pulled(f, id).value == f.items[0])
  {
    var f := Run(Empty<T>(), ops);
    forall a | a >= 0
      ensures f.owner == a <==> Holds(ops, a)
    {
      OwnerHolds(ops, a);
    }
    if f.owner >= 0 {
      assert Holds(ops, f.owner);
    }
  }

  // ---- order over whole runs ----

  function CastItems<T>(ops: seq<Op<T>>): (items: seq<T>) {
    if ops == [] then []
    else CastItems(ops[..|ops| - 1]) + (if ops[|ops| - 1].Cast? then [ops[|ops| - 1].item] else [])
  }

  function PulledItems<T>(f: Fifo<T>, ops: seq<Op<T>>): (items: seq<T>) {
    if ops == [] then []
    else
      var before, op := Run(f, ops[..|ops| - 1]), ops[|ops| - 1];
      PulledItems(f, ops[..|ops| - 1]) +
      (if op.Pull? && Pulled(before, op.id).Some? then [Pulled(before, op.id).value] else [])
  }

  /** Whoever pulls, items leave in the order they were cast and none is lost. */
  lemma {:induction false} RunConservesItems<T>(ops: seq<Op<T>>)
    ensures PulledItems(Empty(), ops) + Run(Empty(), ops).items == CastItems(ops)
  {
    if ops != [] {
      var before, op := ops[..|ops| - 1], ops[|ops| - 1];
      RunConservesItems(before);
      var f := Run(Empty<T>(), before);
      RunKeepsWellOwned(Empty<T>(), before);
      if op.Pull? && Permitted(f, op.id) && f.items != [] {
        assert f.items == [f.items[0]] + AfterPull(f, op.id).items;
      }
    }
  }
}
