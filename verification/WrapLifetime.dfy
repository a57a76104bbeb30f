/** The life of a batch wrapper under any interleaving of producers, consumers and relaxation
  * passes. Every region under the queue's lock is one step; a producer's last write to its wrapper,
  * made after the lock is released, is a step of its own. Wrappers are numbered as they are
  * allocated. */
module WrapLifetime {
  import opened Sequences

  datatype State<T> = State(
    next: nat,               // wrappers 0 .. next - 1 have been allocated
    many: map<nat, seq<T>>,  // what each wrapper holds
    candidate: nat,          // the wrapper being filled
    held: set<nat>,          // allocated by a producer, not yet pushed
    unmarked: set<nat>,      // pushed by a producer that has still to make its last write
    marked: set<nat>,        // marked as discarded
    queued: seq<nat>,
    relaxing: seq<nat>,
    freed: seq<nat>)         // in the order of deletion

  datatype Step<T> =
    | Allocate(item: T)
    | Push(id: nat)
    | LastWrite(id: nat)
    | AddToCandidate(item: T)
    | CommitCandidate
    | DropCandidate
    | Pull
    | Relax
    | Purge

  function Init<T>(): (s: State<T>) {
    State(1, map[0 := []], 0, {}, {}, {}, [], [], [])
  }

  function Discardable(ids: seq<nat>, marked: set<nat>): (gone: seq<nat>) {
    if ids == [] then []
    else Discardable(ids[..|ids| - 1], marked) +
         (if ids[|ids| - 1] in marked then [ids[|ids| - 1]] else [])
  }

  ghost predicate Enabled<T>(s: State<T>, step: Step<T>) {
    match step
    case Push(id) => id in s.held
    case LastWrite(id) => id in s.unmarked
    case CommitCandidate => s.candidate in s.many && s.many[s.candidate] != []
    case AddToCandidate(_) => s.candidate in s.many
    case Pull => s.queued != [] && s.queued[0] in s.many && s.many[s.queued[0]] != []
    case _ => true
  }

  function Apply<T>(s: State<T>, step: Step<T>): (s': State<T>)
    requires Enabled(s, step)
  {
    match step
    case Allocate(x) =>
      s.(next := s.next + 1, many := s.many[s.next := [x]], held := s.held + {s.next})
    case Push(id) => s.(held := s.held - {id}, unmarked := s.unmarked + {id}, queued := s.queued + [id])
    case LastWrite(id) => s.(unmarked := s.unmarked - {id}, marked := s.marked + {id})
    case AddToCandidate(x) => s.(many := s.many[s.candidate := s.many[s.candidate] + [x]])
    case CommitCandidate =>
      s.(next := s.next + 1, many := s.many[s.next := []],
         queued := s.queued + [s.candidate], candidate := s.next)
    case DropCandidate => s.(many := s.many[s.candidate := []])
    case Pull =>
      var id := s.queued[0];
      var rest := s.many[id][1..];
      var t := s.(many := s.many[id := rest]);
      if rest == [] then t.(queued := s.queued[1..], relaxing := s.relaxing + [id]) else t
    case Relax =>
      s.(relaxing := Without(s.relaxing, s.marked), freed := s.freed + Discardable(s.relaxing, s.marked))
    case Purge => s.(queued := [])
  }

  ghost predicate Executes<T>(s: State<T>, steps: seq<Step<T>>)
    decreases steps
  {
    steps == [] || (Enabled(s, steps[0]) && Executes(Apply(s, steps[0]), steps[1..]))
  }

  function Run<T>(s: State<T>, steps: seq<Step<T>>): (s': State<T>)
    requires Executes(s, steps)
    decreases steps
  {
    if steps == [] then s else Run(Apply(s, steps[0]), steps[1..])
  }

  // ---- invariant ----

  /** The wrappers that have been queued, wherever they are now, with their multiplicities. */
  ghost function Passed<T>(s: State<T>): (ids: multiset<nat>) {
    multiset(s.queued) + multiset(s.relaxing) + multiset(s.freed)
  }

  /** No wrapper is in two places or twice in one, and who holds or is still to write a wrapper
    * finds it unmarked; only marked wrappers have been freed. */
  ghost predicate PlacesInv<T>(s: State<T>) {
    && s.candidate < s.next
    && (forall id | id in Passed(s) :: Passed(s)[id] == 1 && id < s.next && id !in s.held && id != s.candidate)
    && (forall id | id in s.held || id in s.unmarked || id in s.marked :: id < s.next && id != s.candidate)
    && s.held !! s.unmarked && s.held !! s.marked && s.unmarked !! s.marked
    && (forall id | id in multiset(s.freed) :: id in s.marked)
  }

  /** Every allocated wrapper has contents, and no queued one is empty. */
  ghost predicate ContentsInv<T>(s: State<T>) {
    && (forall id: nat | id < s.next :: id in s.many)
    && (forall id | id in multiset(s.queued) || id in s.held :: id in s.many && s.many[id] != [])
  }

  /** Relaxing and freed wrappers have been drained. */
  ghost predicate DrainedInv<T>(s: State<T>) {
    forall id | id in s.relaxing || id in s.freed :: id in s.many && s.many[id] == []
  }

  ghost predicate Inv<T>(s: State<T>) {
    PlacesInv(s) && ContentsInv(s)
  }

  lemma {:induction false} RelaxSplits(ids: seq<nat>, marked: set<nat>)
    ensures multiset(ids) == multiset(Without(ids, marked)) + multiset(Discardable(ids, marked))
  {
    if ids != [] {
      var k := |ids| - 1;
      RelaxSplits(ids[..k], marked);
      assert ids == ids[..k] + [ids[k]];
      assert multiset(ids) == multiset(ids[..k]) + multiset{ids[k]};
      if ids[k] in marked {
        assert Without(ids, marked) == Without(ids[..k], marked);
      } else {
        assert Discardable(ids, marked) == Discardable(ids[..k], marked);
      }
    }
  }

  lemma {:induction false} DiscardableIsMarked(ids: seq<nat>, marked: set<nat>)
    ensures forall id | id in Discardable(ids, marked) :: id in marked
  {
    if ids != [] {
      DiscardableIsMarked(ids[..|ids| - 1], marked);
    }
  }

  lemma PushKeepsInv<T>(s: State<T>, id: nat)
    requires Inv(s) && id in s.held
    ensures Inv(Apply(s, Push(id)))
  {
    var s' := Apply(s, Push(id));
    assert Passed(s') == Passed(s) + multiset{id};
    assert multiset(s'.queued) == multiset(s.queued) + multiset{id};
  }

  lemma CommitKeepsInv<T>(s: State<T>)
    requires Inv(s) && Enabled(s, CommitCandidate)
    ensures Inv(Apply(s, CommitCandidate))
  {
    var s' := Apply(s, CommitCandidate);
    assert Passed(s') == Passed(s) + multiset{s.candidate};
    assert multiset(s'.queued) == multiset(s.queued) + multiset{s.candidate};
    assert forall id | id in multiset(s.queued) :: id in Passed(s);
  }

  lemma PullKeepsPlaces<T>(s: State<T>)
    requires PlacesInv(s) && Enabled(s, Pull)
    ensures PlacesInv(Apply(s, Pull)) && Passed(Apply(s, Pull)) == Passed(s)
  {
    var s', id := Apply(s, Pull), s.queued[0];
    assert s.queued == [id] + s.queued[1..];
    assert multiset(s.queued) == multiset{id} + multiset(s.queued[1..]);
    assert Passed(s') == Passed(s);
  }

  lemma PullKeepsContents<T>(s: State<T>)
    requires Inv(s) && Enabled(s, Pull)
    ensures ContentsInv(Apply(s, Pull))
  {
    var id := s.queued[0];
    assert s.queued == [id] + s.queued[1..];
    assert multiset(s.queued) == multiset{id} + multiset(s.queued[1..]);
    assert id in Passed(s);
    assert multiset(s.queued)[id] == 1;
  }

  lemma PullKeepsInv<T>(s: State<T>)
    requires Inv(s) && Enabled(s, Pull)
    ensures Inv(Apply(s, Pull))
  {
    PullKeepsPlaces(s);
    PullKeepsContents(s);
  }

  lemma RelaxKeepsInv<T>(s: State<T>)
    requires Inv(s)
    ensures Inv(Apply(s, Relax))
  {
    var s' := Apply(s, Relax);
    RelaxSplits(s.relaxing, s.marked);
    DiscardableIsMarked(s.relaxing, s.marked);
    assert Passed(s') == Passed(s);
    forall id | id in multiset(s'.freed)
      ensures id in s'.marked
    {
      if id !in multiset(s.freed) {
        assert id in Discardable(s.relaxing, s.marked);
      }
    }
  }

  /** A step that moves no wrapper that was ever queued. */
  lemma QuietKeepsPlaces<T>(s: State<T>, s': State<T>)
    requires PlacesInv(s)
    requires s'.queued == s.queued && s'.relaxing == s.relaxing && s'.freed == s.freed
    requires s'.candidate == s.candidate && s'.unmarked == s.unmarked && s'.marked == s.marked
    requires s.next <= s'.next && s.held <= s'.held
    requires forall id | id in s'.held && id !in s.held :: s.next <= id < s'.next
    ensures PlacesInv(s')
  {
    assert Passed(s') == Passed(s);
  }

  lemma AllocateKeepsContents<T>(s: State<T>, item: T)
    requires Inv(s)
    ensures ContentsInv(Apply(s, Allocate(item)))
  {
    assert forall id | id in multiset(s.queued) :: id in Passed(s);
  }

  lemma AllocateKeepsInv<T>(s: State<T>, item: T)
    requires Inv(s)
    ensures Inv(Apply(s, Allocate(item)))
  {
    QuietKeepsPlaces(s, Apply(s, Allocate(item)));
    AllocateKeepsContents(s, item);
  }

  lemma LastWriteKeepsInv<T>(s: State<T>, id: nat)
    requires Inv(s) && id in s.unmarked
    ensures Inv(Apply(s, LastWrite(id)))
  {
    assert Passed(Apply(s, LastWrite(id))) == Passed(s);
  }

  lemma CandidateKeepsContents<T>(s: State<T>, step: Step<T>)
    requires Inv(s) && Enabled(s, step)
    requires step.AddToCandidate? || step.DropCandidate?
    ensures ContentsInv(Apply(s, step))
  {
    assert forall id | id in multiset(s.queued) :: id in Passed(s);
  }

  lemma CandidateKeepsInv<T>(s: State<T>, step: Step<T>)
    requires Inv(s) && Enabled(s, step)
    requires step.AddToCandidate? || step.DropCandidate?
    ensures Inv(Apply(s, step))
  {
    QuietKeepsPlaces(s, Apply(s, step));
    CandidateKeepsContents(s, step);
  }

  lemma PurgeKeepsInv<T>(s: State<T>)
    requires Inv(s)
    ensures Inv(Apply(s, Purge))
  {
    assert Passed(Apply(s, Purge)) <= Passed(s);
  }

  lemma StepKeepsInv<T>(s: State<T>, step: Step<T>)
    requires Inv(s) && Enabled(s, step)
    ensures Inv(Apply(s, step))
  {
    match step
    case Push(id) => PushKeepsInv(s, id);
    case CommitCandidate => CommitKeepsInv(s);
    case Pull => PullKeepsInv(s);
    case Relax => RelaxKeepsInv(s);
    case Purge => PurgeKeepsInv(s);
    case Allocate(x) => AllocateKeepsInv(s, x);
    case LastWrite(id) => LastWriteKeepsInv(s, id);
    case _ => CandidateKeepsInv(s, step);
  }

  lemma {:induction false} RunKeepsInv<T>(s: State<T>, steps: seq<Step<T>>)
    requires Inv(s) && Executes(s, steps)
    ensures Inv(Run(s, steps))
    decreases steps
  {
    if steps != [] {
      StepKeepsInv(s, steps[0]);
      RunKeepsInv(Apply(s, steps[0]), steps[1..]);
    }
  }

  /** Whatever producers, consumers and relaxation passes do, in whatever order: a wrapper is freed
    * at most once; a freed wrapper is neither queued nor relaxing nor being filled; its producer has
    * made its last write, and nobody is still to write it. */
  lemma FreedIsFinal<T>(steps: seq<Step<T>>)
    requires Executes(Init(), steps)
    ensures var s := Run(Init(), steps);
            && NoDuplicates(s.freed)
            && (forall id | id in s.freed ::
                  && id !in s.queued && id !in s.relaxing && id != s.candidate
                  && id in s.marked && id !in s.unmarked && id !in s.held)
  {
    RunKeepsInv(Init<T>(), steps);
    var s := Run(Init<T>(), steps);
    forall i, j | 0 <= i < j < |s.freed|
      ensures s.freed[i] != s.freed[j]
    {
      TwiceCounts(s.freed, i, j);
      assert s.freed[i] in Passed(s);
    }
    forall id | id in s.freed
      ensures id !in s.queued && id !in s.relaxing && id in s.marked && id != s.candidate && id !in s.held
    {
      assert id in multiset(s.freed) && id in Passed(s);
      assert multiset(s.queued)[id] == 0 && multiset(s.relaxing)[id] == 0;
    }
  }

  lemma StepKeepsDrained<T>(s: State<T>, step: Step<T>)
    requires Inv(s) && DrainedInv(s) && Enabled(s, step)
    ensures DrainedInv(Apply(s, step))
  {
    var s' := Apply(s, step);
    assert forall id | id in s.relaxing || id in s.freed || id in s.queued :: id in Passed(s);
    match step
    case Pull => PullKeepsDrained(s);
    case Relax => RelaxKeepsDrained(s);
    case _ =>
  }

  lemma PullKeepsDrained<T>(s: State<T>)
    requires Inv(s) && DrainedInv(s) && Enabled(s, Pull)
    ensures DrainedInv(Apply(s, Pull))
  {
    var id := s.queued[0];
    assert s.queued == [id] + s.queued[1..];
    assert id in Passed(s) && multiset(s.queued)[id] >= 1;
    assert multiset(s.relaxing)[id] == 0 && multiset(s.freed)[id] == 0;
  }

  lemma RelaxKeepsDrained<T>(s: State<T>)
    requires DrainedInv(s)
    ensures DrainedInv(Apply(s, Relax))
  {
    RelaxSplits(s.relaxing, s.marked);
    WithoutKeeps(s.relaxing, s.marked);
    assert forall id | id in Discardable(s.relaxing, s.marked) :: id in multiset(s.relaxing);
  }

  lemma {:induction false} RunKeepsDrained<T>(s: State<T>, steps: seq<Step<T>>)
    requires Inv(s) && DrainedInv(s) && Executes(s, steps)
    ensures DrainedInv(Run(s, steps))
    decreases steps
  {
    if steps != [] {
      StepKeepsInv(s, steps[0]);
      StepKeepsDrained(s, steps[0]);
      RunKeepsDrained(Apply(s, steps[0]), steps[1..]);
    }
  }

  /** A wrapper is freed only after all its items have been pulled. */
  lemma FreedIsDrained<T>(steps: seq<Step<T>>, id: nat)
    requires Executes(Init(), steps) && id in Run(Init(), steps).freed
    ensures var s := Run(Init(), steps); id in s.many && s.many[id] == []
  {
    RunKeepsDrained(Init<T>(), steps);
  }

  /** A wrapper that has left the queue by a purge. */
  ghost predicate Leaked<T>(s: State<T>, id: nat) {
    id < s.next && id != s.candidate && id !in s.held && id !in s.queued && id !in s.relaxing && id !in s.freed
  }

  lemma {:induction false} LeakedNeverFreed<T>(s: State<T>, steps: seq<Step<T>>, id: nat)
    requires Leaked(s, id) && Executes(s, steps)
    ensures Leaked(Run(s, steps), id)
    decreases steps
  {
    if steps != [] {
      StepKeepsLeaked(s, steps[0], id);
      LeakedNeverFreed(Apply(s, steps[0]), steps[1..], id);
    }
  }

  lemma StepKeepsLeaked<T>(s: State<T>, step: Step<T>, id: nat)
    requires Leaked(s, id) && Enabled(s, step)
    ensures Leaked(Apply(s, step), id)
  {
    if step.Relax? {
      RelaxSplits(s.relaxing, s.marked);
      WithoutKeeps(s.relaxing, s.marked);
      assert id in Discardable(s.relaxing, s.marked) ==> id in multiset(s.relaxing);
    }
  }

  /** The wrappers that a purge finds in the queue are freed in no continuation. */
  lemma PurgedNeverFreed<T>(steps: seq<Step<T>>, more: seq<Step<T>>, id: nat)
    requires Executes(Init(), steps) && id in Run(Init(), steps).queued
    requires Executes(Apply(Run(Init(), steps), Purge), more)
    ensures id !in Run(Apply(Run(Init(), steps), Purge), more).freed
  {
    RunKeepsInv(Init<T>(), steps);
    var s := Run(Init<T>(), steps);
    assert id in Passed(s) && multiset(s.queued)[id] >= 1;
    assert multiset(s.relaxing)[id] == 0 && multiset(s.freed)[id] == 0;
    LeakedNeverFreed(Apply(s, Purge), more, id);
  }

  lemma TwiceCounts(ids: seq<nat>, i: nat, j: nat)
    requires i < j < |ids|
    ensures ids[i] == ids[j] ==> multiset(ids)[ids[i]] >= 2
  {
    assert ids == ids[..j] + ids[j..];
    assert ids[i] in multiset(ids[..j]) && ids[j] in multiset(ids[j..]);
  }

  // ---- which wrappers can be freed ----

  /** The wrapper of a committed batch: no longer the candidate, and no producer holds it, is still to
    * mark it, or has marked it. */
  ghost predicate Committed<T>(s: State<T>, id: nat) {
    id < s.next && id != s.candidate && id !in s.held && id !in s.unmarked && id !in s.marked
  }

  /** Somewhere in the run the candidate with number `id` is committed. */
  ghost predicate CommittedIn<T>(s: State<T>, steps: seq<Step<T>>, id: nat)
    requires Executes(s, steps)
    decreases steps
  {
    steps != [] && ((steps[0].CommitCandidate? && s.candidate == id) || CommittedIn(Apply(s, steps[0]), steps[1..], id))
  }

  /** Only the commit of a wrapper makes it a committed batch's, and nothing undoes that. */
  lemma StepCommits<T>(s: State<T>, step: Step<T>, id: nat)
    requires Inv(s) && Enabled(s, step)
    ensures Committed(Apply(s, step), id) <==> Committed(s, id) || (step.CommitCandidate? && id == s.candidate)
  {
  }

  lemma {:induction false} RunCommits<T>(s: State<T>, steps: seq<Step<T>>, id: nat)
    requires Inv(s) && Executes(s, steps)
    ensures Committed(Run(s, steps), id) <==> Committed(s, id) || CommittedIn(s, steps, id)
    decreases steps
  {
    if steps != [] {
      StepCommits(s, steps[0], id);
      StepKeepsInv(s, steps[0]);
      RunCommits(Apply(s, steps[0]), steps[1..], id);
    }
  }

  lemma {:induction false} NeverFreed<T>(s: State<T>, steps: seq<Step<T>>, id: nat)
    requires Inv(s) && Committed(s, id) && Executes(s, steps)
    ensures Committed(Run(s, steps), id) && id !in Run(s, steps).freed
    decreases steps
  {
    if steps == [] {
      assert id in s.freed ==> id in multiset(s.freed);
    } else {
      StepKeepsInv(s, steps[0]);
      StepCommits(s, steps[0], id);
      NeverFreed(Apply(s, steps[0]), steps[1..], id);
    }
  }

  /** A wrapper committed in a run is freed in no continuation. */
  lemma CommittedNeverFreed<T>(steps: seq<Step<T>>, more: seq<Step<T>>, id: nat)
    requires Executes(Init(), steps) && CommittedIn(Init(), steps, id)
    requires Executes(Run(Init(), steps), more)
    ensures id !in Run(Init(), steps).freed && id !in Run(Run(Init(), steps), more).freed
  {
    RunKeepsInv(Init<T>(), steps);
    RunCommits(Init<T>(), steps, id);
    NeverFreed(Run(Init<T>(), steps), [], id);
    NeverFreed(Run(Init<T>(), steps), more, id);
  }

  /** Wrappers do get committed: adding an item to the candidate makes its commit possible. */
  lemma CommitHappens<T>(x: T)
    ensures var steps := [AddToCandidate(x), CommitCandidate];
            && Executes(Init(), steps) && CommittedIn(Init(), steps, 0)
            && Run(Init(), steps).queued == [0] && 0 in Run(Init(), steps).many && Run(Init(), steps).many[0] == [x]
  {
    var steps := [AddToCandidate(x), CommitCandidate];
    var s1 := Apply(Init(), steps[0]);
    assert s1.many[0] == [x] && s1.candidate == 0;
    var rest := steps[1..];
    assert rest == [CommitCandidate] && rest[1..] == [];
    var s2 := Apply(s1, CommitCandidate);
    assert Executes(s2, []) && Run(s2, []) == s2;
    assert Executes(s1, rest) && CommittedIn(s1, rest, 0) && Run(s1, rest) == s2;
  }

  lemma {:induction false} DiscardsMarked(ids: seq<nat>, marked: set<nat>, id: nat)
    requires id in ids && id in marked
    ensures id in Discardable(ids, marked)
  {
    var k := |ids| - 1;
    if id != ids[k] {
      assert id in ids[..k];
      DiscardsMarked(ids[..k], marked, id);
    }
  }

  /** A relaxing wrapper can still be freed if and only if it was never committed as a batch. */
  lemma FreeableIff<T>(steps: seq<Step<T>>, id: nat)
    requires Executes(Init(), steps) && id in Run(Init(), steps).relaxing
    ensures var s := Run(Init(), steps);
            (exists more :: Executes(s, more) && id in Run(s, more).freed) <==> !CommittedIn(Init(), steps, id)
  {
    RunKeepsInv(Init<T>(), steps);
    RunCommits(Init<T>(), steps, id);
    var s := Run(Init<T>(), steps);
    if Committed(s, id) {
      forall more | Executes(s, more)
        ensures id !in Run(s, more).freed
      {
        NeverFreed(s, more, id);
      }
    } else {
      var more := FreedBy(s, id);
    }
  }

  lemma FreedBy<T>(s: State<T>, id: nat) returns (more: seq<Step<T>>)
    requires Inv(s) && id in s.relaxing && !Committed(s, id)
    ensures Executes(s, more) && id in Run(s, more).freed
  {
    assert id in Passed(s);
    var marked := if id in s.unmarked then Apply(s, LastWrite(id)) else s;
    DiscardsMarked(marked.relaxing, marked.marked, id);
    var relaxed := Apply(marked, Relax);
    more := [Relax];
    assert more[1..] == [];
    assert Executes(marked, more) && Run(marked, more) == relaxed;
    if id in s.unmarked {
      more := [LastWrite(id), Relax];
      assert more[1..] == [Relax];
    }
  }
}
