/** Batches whose last item holds back the next batch until the batch is released
  * ("wait for last"), or does not ("wait for first"). Blocking writes are on. */
module ReleaseSpec {
  import opened Sequences

  datatype Policy = WaitForLast | WaitForFirst

  datatype Op<T> = Cast(batch: seq<T>) | Pull | ReleaseFirst | ReleaseAll

  /** `deferred` counts the drained batches that wait for their release. */
  datatype Held<T> = Held(batches: seq<seq<T>>, deferred: nat)

  predicate CanPull<T>(s: Held<T>, policy: Policy) {
    (policy.WaitForFirst? || s.deferred == 0) && s.batches != [] && s.batches[0] != []
  }

  function PopItem<T>(s: Held<T>): (s': Held<T>)
    requires s.batches != [] && s.batches[0] != []
  {
    Held(WithoutFirst(s.batches), if |s.batches[0]| == 1 then s.deferred + 1 else s.deferred)
  }

  function Step<T>(s: Held<T>, policy: Policy, op: Op<T>): (s': Held<T>) {
    match op
    case Cast(b) => s.(batches := s.batches + [b])
    case Pull => if CanPull(s, policy) then PopItem(s) else s
    case ReleaseFirst => if s.deferred > 0 then s.(deferred := s.deferred - 1) else s
    case ReleaseAll => s.(deferred := 0)
  }

  /** A run with its history: the batches cast, the items delivered, how many batches are
    * finished and what was delivered of the current one. */
  datatype Log<T> = Log(s: Held<T>, casts: seq<seq<T>>, out: seq<T>, finished: nat, part: seq<T>)

  function Record<T>(l: Log<T>, policy: Policy, op: Op<T>): (l': Log<T>) {
    var s' := Step(l.s, policy, op);
    match op
    case Cast(b) => l.(s := s', casts := l.casts + [b])
    case Pull =>
      if !CanPull(l.s, policy) then l
      else
        var x := l.s.batches[0][0];
        if |l.s.batches[0]| == 1 then
          l.(s := s', out := l.out + [x], finished := l.finished + 1, part := [])
        else
          l.(s := s', out := l.out + [x], part := l.part + [x])
    case _ => l.(s := s')
  }

  function Run<T>(policy: Policy, ops: seq<Op<T>>): (l: Log<T>) {
    if ops == [] then Log(Held([], 0), [], [], 0, [])
    else Record(Run(policy, ops[..|ops| - 1]), policy, ops[|ops| - 1])
  }

  // ---- delivery follows the casts ----

  /** What is queued is what was cast, less the finished batches and the part delivered. */
  ghost predicate Follows<T>(l: Log<T>) {
    && l.finished + |l.s.batches| == |l.casts|
    && l.out == Flatten(l.casts[..l.finished]) + l.part
    && (l.s.batches == [] ==> l.part == [])
    && (l.s.batches != [] ==> l.casts[l.finished] == l.part + l.s.batches[0])
    && (l.s.batches != [] ==> l.s.batches[1..] == l.casts[l.finished + 1..])
  }

  lemma CastFollows<T>(l: Log<T>, policy: Policy, b: seq<T>)
    requires Follows(l)
    ensures Follows(Record(l, policy, Cast(b)))
  {
    assert (l.casts + [b])[..l.finished] == l.casts[..l.finished];
    if l.s.batches == [] {
      assert b == [] + b;
    } else {
      assert (l.casts + [b])[l.finished + 1..] == l.casts[l.finished + 1..] + [b];
      assert (l.s.batches + [b])[1..] == l.s.batches[1..] + [b];
    }
  }

  lemma PullFollows<T>(l: Log<T>, policy: Policy)
    requires Follows(l) && CanPull(l.s, policy)
    ensures Follows(Record(l, policy, Pull))
  {
    var b, k := l.s.batches[0], l.finished;
    assert b == [b[0]] + b[1..];
    if |b| == 1 {
      assert l.casts[..k + 1] == l.casts[..k] + [l.casts[k]];
      FlattenAppend(l.casts[..k], [l.casts[k]]);
      FlattenOne(l.casts[k]);
      assert l.casts[k] == l.part + [b[0]];
    }
  }

  lemma RecordFollows<T>(l: Log<T>, policy: Policy, op: Op<T>)
    requires Follows(l)
    ensures Follows(Record(l, policy, op))
  {
    match op
    case Cast(b) => CastFollows(l, policy, b);
    case Pull =>
      if CanPull(l.s, policy) {
        PullFollows(l, policy);
      }
    case _ =>
  }

  lemma {:induction false} RunFollows<T>(policy: Policy, ops: seq<Op<T>>)
    ensures Follows(Run(policy, ops))
  {
    if ops != [] {
      RunFollows(policy, ops[..|ops| - 1]);
      RecordFollows(Run(policy, ops[..|ops| - 1]), policy, ops[|ops| - 1]);
    }
  }

  lemma {:induction false} RunAppend<T>(policy: Policy, ops: seq<Op<T>>, op: Op<T>)
    ensures Run(policy, ops + [op]) == Record(Run(policy, ops), policy, op)
  {
    assert (ops + [op])[..|ops|] == ops;
  }

  /** The item counter goes up by one for every cast, whatever its size, and down by one for every
    * item delivered. It tells the number of queued items exactly when the casts so far brought as
    * many items as there were casts. */
  lemma CounterExactIff<T>(policy: Policy, ops: seq<Op<T>>)
    ensures var l := Run(policy, ops);
            |l.casts| - |l.out| == TotalSize(l.s.batches) <==> TotalSize(l.casts) == |l.casts|
  {
    var l := Run(policy, ops);
    RunFollows(policy, ops);
    FlattenSize(l.casts);
    FlattenSize(l.s.batches);
    assert l.casts == l.casts[..l.finished] + l.casts[l.finished..];
    FlattenAppend(l.casts[..l.finished], l.casts[l.finished..]);
  }

  // ---- the barrier of wait-for-last ----

  ghost predicate NoRelease<T>(ops: seq<Op<T>>) {
    forall i | 0 <= i < |ops| :: ops[i].Cast? || ops[i].Pull?
  }

  /** At most one batch waits for release, and while it does the next batch is untouched. */
  lemma {:induction false} AtMostOneDeferred<T>(ops: seq<Op<T>>)
    ensures var l := Run(WaitForLast, ops);
            l.s.deferred <= 1 && (l.s.deferred == 1 ==> l.part == [])
  {
    if ops != [] {
      AtMostOneDeferred(ops[..|ops| - 1]);
    }
  }

  /** Once a batch is finished nothing more is delivered, whatever is cast or tried, until a
    * release. */
  lemma {:induction false} NothingBeforeRelease<T>(ops: seq<Op<T>>, quiet: seq<Op<T>>)
    requires Run(WaitForLast, ops).s.deferred > 0
    requires NoRelease(quiet)
    ensures var l, l' := Run(WaitForLast, ops), Run(WaitForLast, ops + quiet);
            && l'.s.deferred == l.s.deferred == 1
            && l'.finished == l.finished <= |l'.casts| && l'.part == []
            && l'.out == l.out == Flatten(l'.casts[..l'.finished])
  {
    AtMostOneDeferred(ops);
    if quiet == [] {
      assert ops + quiet == ops;
      RunFollows(WaitForLast, ops);
      var l := Run(WaitForLast, ops);
      assert Flatten(l.casts[..l.finished]) + [] == Flatten(l.casts[..l.finished]);
    } else {
      var shorter, last := quiet[..|quiet| - 1], quiet[|quiet| - 1];
      NothingBeforeRelease(ops, shorter);
      assert ops + quiet == (ops + shorter) + [last];
      RunAppend(WaitForLast, ops + shorter, last);
      var l, l' := Run(WaitForLast, ops + shorter), Run(WaitForLast, ops + quiet);
      RunFollows(WaitForLast, ops + shorter);
      assert l'.casts[..l'.finished] == l.casts[..l.finished];
    }
  }

  /** The first pull after the release delivers the first item of the next batch, if that batch
    * has been cast and is not empty, and nothing otherwise. */
  lemma FirstAfterRelease<T>(ops: seq<Op<T>>, quiet: seq<Op<T>>)
    requires Run(WaitForLast, ops).s.deferred > 0
    requires NoRelease(quiet)
    ensures var l := Run(WaitForLast, ops + quiet);
            var l' := Run(WaitForLast, ops + quiet + [ReleaseFirst, Pull]);
            l'.out == l.out + (if l.finished < |l.casts| && l.casts[l.finished] != []
                               then [l.casts[l.finished][0]] else [])
  {
    var all := ops + quiet;
    NothingBeforeRelease(ops, quiet);
    RunFollows(WaitForLast, all);
    RunAppend(WaitForLast, all, ReleaseFirst);
    RunAppend(WaitForLast, all + [ReleaseFirst], Pull);
    assert all + [ReleaseFirst, Pull] == all + [ReleaseFirst] + [Pull];
    var l := Run(WaitForLast, all);
    assert l.s.batches != [] ==> l.casts[l.finished] == l.s.batches[0];
    assert l.out + [] == l.out;
  }

  // ---- what an empty vector does ----

  /** Finished batches were not empty, and the batch in front is empty only if it was cast so. */
  ghost predicate NoneEmptyPassed<T>(l: Log<T>) {
    && l.finished <= |l.casts|
    && (forall i | 0 <= i < l.finished :: l.casts[i] != [])
    && (l.s.batches != [] && l.s.batches[0] == [] ==> l.part == [])
  }

  lemma RecordPassesNoneEmpty<T>(l: Log<T>, policy: Policy, op: Op<T>)
    requires Follows(l) && NoneEmptyPassed(l)
    ensures NoneEmptyPassed(Record(l, policy, op))
  {
    RecordFollows(l, policy, op);
  }

  lemma {:induction false} RunPassesNoneEmpty<T>(policy: Policy, ops: seq<Op<T>>)
    ensures NoneEmptyPassed(Run(policy, ops))
  {
    if ops != [] {
      RunPassesNoneEmpty(policy, ops[..|ops| - 1]);
      RunFollows(policy, ops[..|ops| - 1]);
      RecordPassesNoneEmpty(Run(policy, ops[..|ops| - 1]), policy, ops[|ops| - 1]);
    }
  }

  lemma {:induction false} PrefixesGrow<T>(casts: seq<seq<T>>, i: nat, j: nat)
    requires i <= j <= |casts|
    ensures Flatten(casts[..i]) <= Flatten(casts[..j])
  {
    if i < j {
      PrefixesGrow(casts, i, j - 1);
      assert casts[..j] == casts[..j - 1] + [casts[j - 1]];
      FlattenAppend(casts[..j - 1], [casts[j - 1]]);
    }
  }

  /** What has been delivered reaches at most to the end of a batch that is not finished. */
  lemma OutStaysWithin<T>(l: Log<T>, i: nat)
    requires Follows(l) && l.finished <= i < |l.casts|
    ensures l.out <= Flatten(l.casts[..i + 1])
  {
    var k := l.finished;
    assert l.casts[..k + 1] == l.casts[..k] + [l.casts[k]];
    FlattenAppend(l.casts[..k], [l.casts[k]]);
    FlattenOne(l.casts[k]);
    assert Flatten(l.casts[..k + 1]) == l.out + l.s.batches[0];
    PrefixesGrow(l.casts, k + 1, i + 1);
  }

  /** An empty vector is never passed: under either policy, and whatever follows, no batch from it on
    * is finished, and nothing cast after it is ever delivered. */
  lemma EmptyBatchBlocks<T>(policy: Policy, ops: seq<Op<T>>, i: nat)
    requires i < |Run(policy, ops).casts| && Run(policy, ops).casts[i] == []
    ensures var l := Run(policy, ops); l.finished <= i && l.out <= Flatten(l.casts[..i])
  {
    var l := Run(policy, ops);
    RunFollows(policy, ops);
    RunPassesNoneEmpty(policy, ops);
    OutStaysWithin(l, i);
    assert l.casts[..i + 1] == l.casts[..i] + [[]];
    FlattenAppend(l.casts[..i], [[]]);
    FlattenOne<T>([]);
  }

  /** The smallest such run: after an empty vector nothing is ever delivered. */
  lemma EmptyVectorFirst<T>(policy: Policy, more: seq<Op<T>>)
    ensures Run(policy, [Cast([])] + more).out == []
  {
    var first: seq<Op<T>> := [Cast([])];
    CastsKept(policy, first, more);
    assert first[..0] == [];
    assert Run(policy, first).casts == [[]];
    EmptyBatchBlocks(policy, first + more, 0);
  }

  lemma {:induction false} CastsKept<T>(policy: Policy, ops: seq<Op<T>>, more: seq<Op<T>>)
    ensures Run(policy, ops).casts <= Run(policy, ops + more).casts
    ensures (forall j | 0 <= j < |more| :: !more[j].Cast?) ==>
              Run(policy, ops + more).casts == Run(policy, ops).casts
  {
    if more == [] {
      assert ops + more == ops;
    } else {
      var shorter, last := more[..|more| - 1], more[|more| - 1];
      CastsKept(policy, ops, shorter);
      assert ops + more == (ops + shorter) + [last];
      RunAppend(policy, ops + shorter, last);
      assert last == more[|more| - 1];
    }
  }

  /** Only pulls and releases. */
  ghost predicate NoCast<T>(ops: seq<Op<T>>) {
    forall j | 0 <= j < |ops| :: !ops[j].Cast?
  }

  /** A release and a pull deliver one more item when the batch in front is not empty. */
  lemma OneMoreItem<T>(policy: Policy, ops: seq<Op<T>>)
    requires var l := Run(policy, ops); l.finished < |l.casts| && l.casts[l.finished] != []
    ensures var l, l' := Run(policy, ops), Run(policy, ops + [ReleaseAll, Pull]);
            |l'.out| == |l.out| + 1 && l'.casts == l.casts
  {
    RunFollows(policy, ops);
    RunPassesNoneEmpty(policy, ops);
    RunAppend(policy, ops, ReleaseAll);
    RunAppend(policy, ops + [ReleaseAll], Pull);
    assert ops + [ReleaseAll, Pull] == ops + [ReleaseAll] + [Pull];
  }

  lemma {:induction false} DeliverThrough<T>(policy: Policy, ops: seq<Op<T>>, k: nat) returns (more: seq<Op<T>>)
    requires var l := Run(policy, ops); k < |l.casts| && forall i | 0 <= i <= k :: l.casts[i] != []
    ensures NoCast(more) && Run(policy, ops + more).finished > k
    decreases |Flatten(Run(policy, ops).casts[..k + 1])| - |Run(policy, ops).out|
  {
    var l := Run(policy, ops);
    if l.finished > k {
      more := [];
      assert ops + more == ops;
    } else {
      ShrinkingRest(policy, ops, k);
      var rest := DeliverThrough(policy, ops + [ReleaseAll, Pull], k);
      more := [ReleaseAll, Pull] + rest;
      assert ops + more == ops + [ReleaseAll, Pull] + rest;
    }
  }

  lemma ShrinkingRest<T>(policy: Policy, ops: seq<Op<T>>, k: nat)
    requires var l := Run(policy, ops); l.finished <= k < |l.casts| && l.casts[l.finished] != []
    ensures var l, l' := Run(policy, ops), Run(policy, ops + [ReleaseAll, Pull]);
            |l'.out| > |l.out| && l'.casts == l.casts && |l.out| <= |Flatten(l.casts[..k + 1])|
  {
    OneMoreItem(policy, ops);
    RunFollows(policy, ops);
    OutStaysWithin(Run(policy, ops), k);
  }

  /** Batch `k` can still be delivered in full, by some pulls and releases, if and only if neither it
    * nor any batch cast before it is empty. */
  lemma DeliverableIff<T>(policy: Policy, ops: seq<Op<T>>, k: nat)
    requires k < |Run(policy, ops).casts|
    ensures (exists more :: NoCast(more) && Run(policy, ops + more).finished > k)
       <==> (forall i | 0 <= i <= k :: Run(policy, ops).casts[i] != [])
  {
    var l := Run(policy, ops);
    if more :| NoCast(more) && Run(policy, ops + more).finished > k {
      CastsKept(policy, ops, more);
      RunPassesNoneEmpty(policy, ops + more);
    }
    if forall i | 0 <= i <= k :: l.casts[i] != [] {
      var more := DeliverThrough(policy, ops, k);
    }
  }

  // ---- wait-for-last against wait-for-first ----

  /** `ahead` is what remains of `behind` after exactly `items` have been taken from it. */
  ghost predicate TakenFrom<T>(behind: seq<seq<T>>, items: seq<T>, ahead: seq<seq<T>>)
    decreases |items|
  {
    if items == [] then ahead == behind
    else
      && behind != [] && behind[0] != [] && behind[0][0] == items[0]
      && TakenFrom(WithoutFirst(behind), items[1..], ahead)
  }

  lemma {:induction false} TakenThenCast<T>(behind: seq<seq<T>>, items: seq<T>, ahead: seq<seq<T>>, b: seq<T>)
    requires TakenFrom(behind, items, ahead)
    ensures TakenFrom(behind + [b], items, ahead + [b])
    decreases |items|
  {
    if items != [] {
      assert WithoutFirst(behind + [b]) == WithoutFirst(behind) + [b];
      TakenThenCast(WithoutFirst(behind), items[1..], ahead, b);
    }
  }

  lemma {:induction false} TakenThenOneMore<T>(behind: seq<seq<T>>, items: seq<T>, ahead: seq<seq<T>>)
    requires TakenFrom(behind, items, ahead) && ahead != [] && ahead[0] != []
    ensures TakenFrom(behind, items + [ahead[0][0]], WithoutFirst(ahead))
    decreases |items|
  {
    if items == [] {
      assert ([] + [ahead[0][0]])[1..] == [];
    } else {
      TakenThenOneMore(WithoutFirst(behind), items[1..], ahead);
      assert (items + [ahead[0][0]])[1..] == items[1..] + [ahead[0][0]];
    }
  }

  lemma RecordPull<T>(l: Log<T>, policy: Policy)
    ensures var l' := Record(l, policy, Pull);
            if CanPull(l.s, policy)
            then l'.out == l.out + [l.s.batches[0][0]] && l'.s.batches == WithoutFirst(l.s.batches)
            else l' == l
  {
  }

  lemma AheadPulls<T>(l2: Log<T>, l3: Log<T>, lead: seq<T>) returns (lead': seq<T>)
    requires l3.out == l2.out + lead && TakenFrom(l2.s.batches, lead, l3.s.batches)
    ensures var r3 := Record(l3, WaitForFirst, Pull);
            r3.out == l2.out + lead' && TakenFrom(l2.s.batches, lead', r3.s.batches)
    ensures CanPull(l2.s, WaitForLast) ==> lead' != []
  {
    RecordPull(l3, WaitForFirst);
    lead' := lead;
    if CanPull(l3.s, WaitForFirst) {
      TakenThenOneMore(l2.s.batches, lead, l3.s.batches);
      lead' := lead + [l3.s.batches[0][0]];
      assert (l2.out + lead) + [l3.s.batches[0][0]] == l2.out + lead';
    }
  }

  lemma BehindPulls<T>(l2: Log<T>, out3: seq<T>, ahead: seq<seq<T>>, lead: seq<T>)
    requires out3 == l2.out + lead && TakenFrom(l2.s.batches, lead, ahead)
    requires CanPull(l2.s, WaitForLast) && lead != []
    ensures var r2 := Record(l2, WaitForLast, Pull);
            out3 == r2.out + lead[1..] && TakenFrom(r2.s.batches, lead[1..], ahead)
  {
    RecordPull(l2, WaitForLast);
    assert lead == [lead[0]] + lead[1..];
    assert l2.out + ([lead[0]] + lead[1..]) == (l2.out + [lead[0]]) + lead[1..];
  }

  lemma PullKeepsLead<T>(l2: Log<T>, l3: Log<T>, lead: seq<T>) returns (lead': seq<T>)
    requires l3.out == l2.out + lead && TakenFrom(l2.s.batches, lead, l3.s.batches)
    ensures var (r2, r3) := (Record(l2, WaitForLast, Pull), Record(l3, WaitForFirst, Pull));
            r3.out == r2.out + lead' && TakenFrom(r2.s.batches, lead', r3.s.batches)
  {
    lead' := AheadPulls(l2, l3, lead);
    if CanPull(l2.s, WaitForLast) {
      var r3 := Record(l3, WaitForFirst, Pull);
      BehindPulls(l2, r3.out, r3.s.batches, lead');
      lead' := lead'[1..];
    } else {
      RecordPull(l2, WaitForLast);
    }
  }

  /** On the same operations, waiting for the last item never delivers anything that waiting for
    * the first would not have delivered by then: its output is a prefix. The lead is exactly what
    * the other queue has taken from the batches this one still holds. */
  lemma {:induction false} WaitForLastIsPrefix<T>(ops: seq<Op<T>>)
    returns (lead: seq<T>)
    ensures Run(WaitForFirst, ops).out == Run(WaitForLast, ops).out + lead
    ensures TakenFrom(Run(WaitForLast, ops).s.batches, lead, Run(WaitForFirst, ops).s.batches)
  {
    lead := [];
    if ops != [] {
      var l2, l3 := Run(WaitForLast, ops[..|ops| - 1]), Run(WaitForFirst, ops[..|ops| - 1]);
      lead := WaitForLastIsPrefix(ops[..|ops| - 1]);
      match ops[|ops| - 1]
      case Cast(b) => TakenThenCast(l2.s.batches, lead, l3.s.batches, b);
      case Pull => lead := PullKeepsLead(l2, l3, lead);
      case _ =>
    }
  }
}
