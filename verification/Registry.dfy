/** The pool's table of sessions and the list the workers choose from. The list is a snapshot: it is
  * appended to when a session is added and rebuilt only when a worker meets a session whose
  * cancellation was requested. */
module RegistrySpec {
  import opened Sequences

  /** `known` are the sessions ever added, `requested` those asked to cancel. */
  datatype Registry<!S> = Registry(
    all: map<nat, S>,
    online: seq<S>,
    known: set<S>,
    requested: set<S>,
    paused: set<S>)

  datatype Op<S> =
    | Add(id: nat, s: S)
    | Cancel(id: nat)
    | RequestCancel(s: S)         // by a routine, or by the session itself when it expires
    | Pause(id: nat)
    | Resume(id: nat)
    | Unpause(s: S)               // a visit clears the session's own flag
    | Visit(selector: nat, order: seq<S>)

  function Empty<S>(): (r: Registry<S>) { Registry(map[], [], {}, {}, {}) }

  /** `order` is some enumeration of the registered sessions that are not paused. */
  ghost predicate Enumerates<S>(order: seq<S>, r: Registry<S>) {
    && NoDuplicates(order)
    && (forall s | s in order :: s in r.all.Values && s !in r.paused)
    && (forall s | s in r.all.Values :: s in r.paused || s in order)
  }

  /** The visit finds a cancelled session in its place and rebuilds the list. */
  ghost predicate Rebuilds<S>(r: Registry<S>, op: Op<S>) {
    && op.Visit?
    && op.selector < |r.online|
    && r.online[op.selector] in r.requested
    && Enumerates(op.order, r)
  }

  /** A visit returns a session to serve. */
  ghost predicate Chooses<S>(r: Registry<S>, selector: nat) {
    selector < |r.online| && r.online[selector] !in r.requested
  }

  /** Sessions are added only once; otherwise every operation is possible at any time. */
  ghost predicate Enabled<S>(r: Registry<S>, op: Op<S>) {
    op.Add? ==> op.s !in r.known
  }

  ghost function Step<S>(r: Registry<S>, op: Op<S>): (r': Registry<S>) {
    match op
    case Add(id, s) =>
      if id in r.all then r else r.(all := r.all[id := s], online := r.online + [s], known := r.known + {s})
    case Cancel(id) =>
      if id !in r.all then r
      else r.(all := map k | k in r.all && k != id :: r.all[k], requested := r.requested + {r.all[id]})
    case RequestCancel(s) => r.(requested := r.requested + {s})
    case Pause(id) => if id in r.all then r.(paused := r.paused + {r.all[id]}) else r
    case Resume(id) => if id in r.all then r.(paused := r.paused - {r.all[id]}) else r
    case Unpause(s) => r.(paused := r.paused - {s})
    case Visit(_, order) => if Rebuilds(r, op) then r.(online := order) else r
  }

  ghost function Run<S>(ops: seq<Op<S>>): (r: Registry<S>) {
    if ops == [] then Empty() else Step(Run(ops[..|ops| - 1]), ops[|ops| - 1])
  }

  ghost predicate Possible<S>(ops: seq<Op<S>>) {
    forall i | 0 <= i < |ops| :: Enabled(Run(ops[..i]), ops[i])
  }

  ghost predicate Inv<S>(r: Registry<S>) {
    && NoDuplicates(r.online)
    && (forall s | s in r.online :: s in r.known && (s in r.all.Values || s in r.requested))
    && r.all.Values <= r.known
    && (forall k, l | k in r.all && l in r.all && k != l :: r.all[k] != r.all[l])
  }

  lemma CancelValues<S>(r: Registry<S>, id: nat)
    requires Inv(r) && id in r.all
    ensures Step(r, Cancel(id)).all.Values == r.all.Values - {r.all[id]}
  {
    var after := Step(r, Cancel(id)).all;
    forall s | s in r.all.Values && s != r.all[id]
      ensures s in after.Values
    {
      var k :| k in r.all && r.all[k] == s;
      assert k in after && after[k] == s;
    }
  }

  lemma AddValues<S>(r: Registry<S>, id: nat, s: S)
    requires id !in r.all
    ensures Step(r, Add(id, s)).all.Values == r.all.Values + {s}
  {
    var after := Step(r, Add(id, s)).all;
    assert after[id] == s;
    forall t | t in r.all.Values
      ensures t in after.Values
    {
      var k :| k in r.all && r.all[k] == t;
      assert k in after && after[k] == t;
    }
  }

  lemma StepKeepsInv<S>(r: Registry<S>, op: Op<S>)
    requires Inv(r) && Enabled(r, op)
    ensures Inv(Step(r, op))
  {
    match op
    case Add(id, s) =>
      if id !in r.all {
        AddValues(r, id, s);
      }
    case Cancel(id) =>
      if id in r.all {
        CancelValues(r, id);
      }
    case _ =>
  }

  lemma PossibleBefore<S>(ops: seq<Op<S>>)
    requires Possible(ops) && ops != []
    ensures Possible(ops[..|ops| - 1]) && Enabled(Run(ops[..|ops| - 1]), ops[|ops| - 1])
  {
    var before := ops[..|ops| - 1];
    forall i | 0 <= i < |before|
      ensures Enabled(Run(before[..i]), before[i])
    {
      assert before[..i] == ops[..i];
    }
  }

  /** Over any interleaving the list has no duplicates and each of its entries is registered or
    * cancel-requested. */
  lemma {:induction false} RunKeepsInv<S>(ops: seq<Op<S>>)
    requires Possible(ops)
    ensures Inv(Run(ops))
  {
    if ops != [] {
      PossibleBefore(ops);
      RunKeepsInv(ops[..|ops| - 1]);
      StepKeepsInv(Run(ops[..|ops| - 1]), ops[|ops| - 1]);
    }
  }

  /** A session that `Cancel` removed stays removed and cancelled. */
  ghost predicate Cancelled<S>(r: Registry<S>, s: S) {
    s in r.known && s in r.requested && s !in r.all.Values
  }

  lemma CancelIsFinal<S>(r: Registry<S>, op: Op<S>, s: S)
    requires Inv(r) && Enabled(r, op)
    requires Cancelled(r, s) || (op.Cancel? && op.id in r.all && r.all[op.id] == s)
    ensures Cancelled(Step(r, op), s)
  {
    match op
    case Add(id, t) =>
      if id !in r.all {
        AddValues(r, id, t);
      }
    case Cancel(id) =>
      if id in r.all {
        CancelValues(r, id);
      }
    case _ =>
  }

  /** Operation `i` of the run cancels `s`. */
  ghost predicate CancelsAt<S>(ops: seq<Op<S>>, i: nat, s: S) {
    && i < |ops| && ops[i].Cancel?
    && ops[i].id in Run(ops[..i]).all
    && Run(ops[..i]).all[ops[i].id] == s
  }

  /** A session cancelled at any point of a run is cancelled ever after. */
  lemma {:induction false} RunKeepsCancelled<S>(ops: seq<Op<S>>, i: nat, s: S)
    requires Possible(ops) && CancelsAt(ops, i, s)
    ensures Cancelled(Run(ops), s)
    decreases |ops|
  {
    var before := ops[..|ops| - 1];
    PossibleBefore(ops);
    RunKeepsInv(before);
    if i < |before| {
      assert before[..i] == ops[..i];
      RunKeepsCancelled(before, i, s);
    }
    CancelIsFinal(Run(before), ops[|ops| - 1], s);
  }

  /** The session a worker leaves with is registered, and nobody cancelled it before. */
  lemma {:induction false} ChosenIsRegistered<S>(ops: seq<Op<S>>, selector: nat)
    requires Possible(ops) && Chooses(Run(ops), selector)
    ensures var s := Run(ops).online[selector];
            && s in Run(ops).all.Values
            && forall i: nat :: !CancelsAt(ops, i, s)
  {
    RunKeepsInv(ops);
    var s := Run(ops).online[selector];
    assert s in Run(ops).online;
    if i: nat :| CancelsAt(ops, i, s) {
      RunKeepsCancelled(ops, i, s);
    }
  }

  // ---- who is asked to cancel, and who is paused ----

  /** Operation `i` asks `s` to cancel, by name or by its id. */
  ghost predicate AsksAt<S>(ops: seq<Op<S>>, i: nat, s: S) {
    CancelsAt(ops, i, s) || (i < |ops| && ops[i] == RequestCancel(s))
  }

  lemma SameBefore<S>(ops: seq<Op<S>>, i: nat)
    requires i < |ops| - 1
    ensures ops[..|ops| - 1][..i] == ops[..i] && ops[..|ops| - 1][i] == ops[i]
  {
  }

  /** A session is requested to cancel exactly when some operation has asked it to. */
  lemma {:induction false} RequestedIff<S>(ops: seq<Op<S>>, s: S)
    ensures s in Run(ops).requested <==> exists i: nat :: AsksAt(ops, i, s)
  {
    if ops != [] {
      var k := |ops| - 1;
      RequestedIff(ops[..k], s);
      if i: nat :| AsksAt(ops[..k], i, s) {
        SameBefore(ops, i);
        assert AsksAt(ops, i, s);
      }
      if i: nat :| AsksAt(ops, i, s) {
        if i < k {
          SameBefore(ops, i);
          assert AsksAt(ops[..k], i, s);
        }
      }
      assert AsksAt(ops, k, s) <==>
               || (ops[k].Cancel? && ops[k].id in Run(ops[..k]).all && Run(ops[..k]).all[ops[k].id] == s)
               || ops[k] == RequestCancel(s);
    } else {
      assert forall i: nat :: !AsksAt(ops, i, s);
    }
  }

  /** Operation `i` pauses `s`; it resumes `s`. */
  ghost predicate PausesAt<S>(ops: seq<Op<S>>, i: nat, s: S) {
    i < |ops| && ops[i].Pause? && ops[i].id in Run(ops[..i]).all && Run(ops[..i]).all[ops[i].id] == s
  }

  ghost predicate ResumesAt<S>(ops: seq<Op<S>>, i: nat, s: S) {
    && i < |ops|
    && ((ops[i].Resume? && ops[i].id in Run(ops[..i]).all && Run(ops[..i]).all[ops[i].id] == s) || ops[i] == Unpause(s))
  }

  ghost predicate PausedSince<S>(ops: seq<Op<S>>, i: nat, s: S) {
    PausesAt(ops, i, s) && forall j | i < j < |ops| :: !ResumesAt(ops, j, s)
  }

  lemma PausedSinceNext<S>(ops: seq<Op<S>>, i: nat, s: S)
    requires ops != []
    ensures var k := |ops| - 1;
            PausedSince(ops, i, s) <==>
              if i == k then PausesAt(ops, k, s) else PausedSince(ops[..k], i, s) && !ResumesAt(ops, k, s)
  {
    var k := |ops| - 1;
    if i < k {
      forall j | i <= j < k
        ensures ResumesAt(ops, j, s) == ResumesAt(ops[..k], j, s) && PausesAt(ops, j, s) == PausesAt(ops[..k], j, s)
      {
        SameBefore(ops, j);
      }
    }
  }

  /** A session is paused exactly when it was paused at some point and not resumed since. */
  lemma {:induction false} PausedIff<S>(ops: seq<Op<S>>, s: S)
    ensures s in Run(ops).paused <==> exists i: nat :: PausedSince(ops, i, s)
  {
    if ops != [] {
      var k := |ops| - 1;
      PausedIff(ops[..k], s);
      PausedSinceNext(ops, k, s);
      if i: nat :| PausedSince(ops[..k], i, s) {
        PausedSinceNext(ops, i, s);
      }
      if i: nat :| PausedSince(ops, i, s) {
        PausedSinceNext(ops, i, s);
      }
      PausedStep(Run(ops[..k]), ops[k], s);
    } else {
      assert forall i: nat :: !PausedSince(ops, i, s);
    }
  }

  lemma PausedStep<S>(r: Registry<S>, op: Op<S>, s: S)
    ensures var pauses := op.Pause? && op.id in r.all && r.all[op.id] == s;
            var resumes := (op.Resume? && op.id in r.all && r.all[op.id] == s) || op == Unpause(s);
            s in Step(r, op).paused <==> pauses || (s in r.paused && !resumes)
  {
  }

  // ---- which sessions are listed ----

  ghost predicate RebuildsAt<S>(ops: seq<Op<S>>, i: nat) {
    i < |ops| && Rebuilds(Run(ops[..i]), ops[i])
  }

  /** Operation `i` is the run's last rebuild. */
  ghost predicate LastRebuild<S>(ops: seq<Op<S>>, i: nat) {
    RebuildsAt(ops, i) && forall j | i < j < |ops| :: !RebuildsAt(ops, j)
  }

  /** The list was last rebuilt, by operation `i`, while `s` was registered and paused. */
  ghost predicate LeftOutAt<S>(ops: seq<Op<S>>, i: nat, s: S) {
    && LastRebuild(ops, i)
    && s in Run(ops[..i]).all.Values
    && s in Run(ops[..i]).paused
  }

  ghost predicate LeftOut<S>(ops: seq<Op<S>>, s: S) {
    exists i: nat :: LeftOutAt(ops, i, s)
  }

  lemma LastRebuildNext<S>(ops: seq<Op<S>>, i: nat)
    requires ops != []
    ensures Rebuilds(Run(ops[..|ops| - 1]), ops[|ops| - 1]) ==> (LastRebuild(ops, i) <==> i == |ops| - 1)
    ensures !Rebuilds(Run(ops[..|ops| - 1]), ops[|ops| - 1]) ==>
              (LastRebuild(ops, i) <==> LastRebuild(ops[..|ops| - 1], i))
  {
    var before := ops[..|ops| - 1];
    assert RebuildsAt(ops, |before|) == Rebuilds(Run(before), ops[|before|]);
    forall j | 0 <= j < |before|
      ensures RebuildsAt(before, j) == RebuildsAt(ops, j)
    {
      assert before[..j] == ops[..j];
    }
  }

  lemma LeftOutAtNext<S>(ops: seq<Op<S>>, i: nat, s: S)
    requires ops != []
    ensures var before := ops[..|ops| - 1];
            if Rebuilds(Run(before), ops[|ops| - 1])
            then LeftOutAt(ops, i, s) <==> i == |before| && s in Run(before).all.Values && s in Run(before).paused
            else LeftOutAt(ops, i, s) <==> LeftOutAt(before, i, s)
  {
    var before := ops[..|ops| - 1];
    LastRebuildNext(ops, i);
    if i < |before| {
      assert before[..i] == ops[..i];
    }
  }

  lemma LeftOutNext<S>(ops: seq<Op<S>>, s: S)
    requires ops != []
    ensures var before := ops[..|ops| - 1];
            if Rebuilds(Run(before), ops[|ops| - 1])
            then LeftOut(ops, s) <==> s in Run(before).all.Values && s in Run(before).paused
            else LeftOut(ops, s) <==> LeftOut(before, s)
  {
    var before := ops[..|ops| - 1];
    LeftOutAtNext(ops, |before|, s);
    if i: nat :| LeftOutAt(ops, i, s) {
      LeftOutAtNext(ops, i, s);
    }
    if i: nat :| LeftOutAt(before, i, s) {
      LeftOutAtNext(ops, i, s);
    }
  }

  lemma NeverRebuilt<S>(s: S)
    ensures !LeftOut([], s)
  {
  }

  lemma {:induction false} LeftOutWasKnown<S>(ops: seq<Op<S>>, s: S)
    requires Possible(ops) && LeftOut(ops, s)
    ensures s in Run(ops).known
    decreases |ops|
  {
    if ops == [] {
      NeverRebuilt(s);
    } else {
      PossibleBefore(ops);
      RunKeepsInv(ops[..|ops| - 1]);
      LeftOutNext(ops, s);
      if LeftOut(ops[..|ops| - 1], s) {
        LeftOutWasKnown(ops[..|ops| - 1], s);
      }
    }
  }

  /** A registered session is on the workers' list unless the list was last rebuilt while the session
    * was paused: resuming it does not bring it back. */
  lemma {:induction false} ListedIff<S>(ops: seq<Op<S>>, s: S)
    requires Possible(ops) && s in Run(ops).all.Values
    ensures s in Run(ops).online <==> !LeftOut(ops, s)
    decreases |ops|
  {
    if ops != [] {
      var before, op := ops[..|ops| - 1], ops[|ops| - 1];
      PossibleBefore(ops);
      RunKeepsInv(before);
      RunKeepsInv(ops);
      LeftOutNext(ops, s);
      if op.Add? && op.id !in Run(before).all && op.s == s {
        if LeftOut(before, s) {
          LeftOutWasKnown(before, s);
        }
      } else {
        RegisteredBefore(Run(before), op, s);
        ListedIff(before, s);
      }
    }
  }

  lemma RegisteredBefore<S>(r: Registry<S>, op: Op<S>, s: S)
    requires Inv(r) && Enabled(r, op) && s in Step(r, op).all.Values
    ensures s in r.all.Values || (op.Add? && op.id !in r.all && op.s == s)
  {
    match op
    case Add(id, t) =>
      if id !in r.all {
        AddValues(r, id, t);
      }
    case Cancel(id) =>
      if id in r.all {
        CancelValues(r, id);
      }
    case _ =>
  }

  /** Once the list is empty, only an addition can fill it: every session left out stays unserved, no
    * matter how often it is resumed. */
  lemma {:induction false} EmptyListStays<S>(ops: seq<Op<S>>, n: nat)
    requires n <= |ops|
    requires Run(ops[..n]).online == []
    requires forall i | n <= i < |ops| :: !ops[i].Add?
    ensures Run(ops).online == []
    decreases |ops|
  {
    if n == |ops| {
      assert ops[..n] == ops;
    } else {
      var before := ops[..|ops| - 1];
      assert before[..n] == ops[..n];
      EmptyListStays(before, n);
    }
  }

  /** Such a run: one session is paused, the other one cancelled, a worker notices, the paused session
    * is resumed. */
  lemma ResumedButUnlisted<S>(a: S, b: S)
    requires a != b
    ensures var ops := [Add(1, a), Add(2, b), Pause(1), Cancel(2), Visit(1, []), Resume(1)];
            && Possible(ops)
            && Run(ops).all == map[1 := a] && a !in Run(ops).paused && a !in Run(ops).requested
            && Run(ops).online == []
  {
    var ops := [Add(1, a), Add(2, b), Pause(1), Cancel(2), Visit(1, []), Resume(1)];
    RunNext(ops, 0);
    RunNext(ops, 1);
    RunNext(ops, 2);
    RunNext(ops, 3);
    RunNext(ops, 4);
    RunNext(ops, 5);
    assert ops[..0] == [] && ops[..6] == ops;
    FirstThree(a, b);
    LastThree(a, b);
  }

  lemma FirstThree<S>(a: S, b: S)
    requires a != b
    ensures var r := Step(Empty(), Add(1, a));
            r == Registry(map[1 := a], [a], {a}, {}, {})
    ensures var r := Step(Step(Empty(), Add(1, a)), Add(2, b));
            r == Registry(map[1 := a, 2 := b], [a, b], {a, b}, {}, {})
            && Step(r, Pause(1)) == r.(paused := {a})
  {
  }

  lemma LastThree<S>(a: S, b: S)
    requires a != b
    ensures var r := Registry(map[1 := a, 2 := b], [a, b], {a, b}, {}, {a});
            var cancelled := Step(r, Cancel(2));
            && cancelled == Registry(map[1 := a], [a, b], {a, b}, {b}, {a})
            && Step(cancelled, Visit(1, [])) == cancelled.(online := [])
            && Step(cancelled.(online := []), Resume(1)) == cancelled.(online := [], paused := {})
  {
    var r := Registry(map[1 := a, 2 := b], [a, b], {a, b}, {}, {a});
    var cancelled := Step(r, Cancel(2));
    assert cancelled.all == map[1 := a];
    assert cancelled.all[1] == a;
    assert Rebuilds(cancelled, Visit(1, []));
  }

  lemma RunNext<S>(ops: seq<Op<S>>, i: nat)
    requires i < |ops|
    ensures Run(ops[..i + 1]) == Step(Run(ops[..i]), ops[i])
  {
    assert ops[..i + 1][..i] == ops[..i];
  }

  // ---- two workers and one session ----

  /** None of the operations from `n` on rebuilds the list. */
  ghost predicate NoRebuildFrom<S>(ops: seq<Op<S>>, n: nat) {
    forall i | n <= i < |ops| :: !RebuildsAt(ops, i)
  }

  /** Until the next rebuild every listed session keeps its place. */
  lemma {:induction false} PlacesKept<S>(ops: seq<Op<S>>, n: nat)
    requires n <= |ops| && NoRebuildFrom(ops, n)
    ensures Run(ops[..n]).online <= Run(ops).online
    decreases |ops|
  {
    if n == |ops| {
      assert ops[..n] == ops;
    } else {
      var before := ops[..|ops| - 1];
      assert before[..n] == ops[..n];
      forall i | n <= i < |before|
        ensures !RebuildsAt(before, i)
      {
        assert before[..i] == ops[..i];
        assert !RebuildsAt(ops, i);
      }
      PlacesKept(before, n);
      assert !RebuildsAt(ops, |before|);
    }
  }

  /** Two workers that choose at different moments leave with different sessions, unless the list is
    * rebuilt in between. */
  lemma SharedOnlyAfterRebuild<S>(ops: seq<Op<S>>, n: nat, first: nat, second: nat)
    requires Possible(ops) && n <= |ops| && first != second
    requires Chooses(Run(ops[..n]), first) && Chooses(Run(ops), second)
    requires Run(ops[..n]).online[first] == Run(ops).online[second]
    ensures exists i :: n <= i < |ops| && RebuildsAt(ops, i)
  {
    RunKeepsInv(ops);
    if NoRebuildFrom(ops, n) {
      PlacesKept(ops, n);
    }
  }

  /** And such a run exists: the second of two workers is serving `b` when the first session is
    * cancelled; the first worker notices, rebuilds the list, and is given `b` as well. */
  lemma TwoWorkersShare<S>(a: S, b: S)
    requires a != b
    ensures var before := [Add(1, a), Add(2, b)];
            var after := before + [Cancel(1), Visit(0, [b])];
            && Possible(after) && after[..2] == before
            && Chooses(Run(before), 1) && Run(before).online[1] == b
            && Chooses(Run(after), 0) && Run(after).online[0] == b
  {
    var before := [Add(1, a), Add(2, b)];
    var after := before + [Cancel(1), Visit(0, [b])];
    assert after[..0] == [] && after[..2] == before && after[..4] == after;
    RunNext(after, 0);
    RunNext(after, 1);
    RunNext(after, 2);
    RunNext(after, 3);
    FirstThree(a, b);
    CancelFirst(a, b);
  }

  lemma CancelFirst<S>(a: S, b: S)
    requires a != b
    ensures var r := Registry(map[1 := a, 2 := b], [a, b], {a, b}, {}, {});
            var cancelled := Step(r, Cancel(1));
            && cancelled == Registry(map[2 := b], [a, b], {a, b}, {a}, {})
            && Step(cancelled, Visit(0, [b])) == cancelled.(online := [b])
  {
    var r := Registry(map[1 := a, 2 := b], [a, b], {a, b}, {}, {});
    var cancelled := Step(r, Cancel(1));
    assert cancelled.all == map[2 := b];
    assert cancelled.all[2] == b;
    assert Rebuilds(cancelled, Visit(0, [b]));
  }
}
