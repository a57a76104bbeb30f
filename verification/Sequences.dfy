/** Facts about sequences that several components share. */
module Sequences {

  datatype Option<+T> = None | Some(value: T)

  /** The items of a list of batches, batch after batch. */
  function Flatten<T>(batches: seq<seq<T>>): (items: seq<T>) {
    if batches == [] then [] else batches[0] + Flatten(batches[1..])
  }

  /** The sum of the batch sizes. */
  function TotalSize<T>(batches: seq<seq<T>>): (n: nat) {
    if batches == [] then 0 else |batches[0]| + TotalSize(batches[1..])
  }

  /** The batches without their first item; a drained batch goes. */
  function WithoutFirst<T>(batches: seq<seq<T>>): (rest: seq<seq<T>>)
    requires batches != [] && batches[0] != []
  {
    if |batches[0]| == 1 then batches[1..] else [batches[0][1..]] + batches[1..]
  }

  function Min(a: int, b: int): (m: int) { if a < b then a else b }

  ghost predicate AllNonEmpty<T>(batches: seq<seq<T>>) {
    forall i | 0 <= i < |batches| :: batches[i] != []
  }

  ghost predicate NoDuplicates<T>(s: seq<T>) {
    forall i, j | 0 <= i < j < |s| :: s[i] != s[j]
  }

  /** `s` with every member of `gone` left out, in the old order. */
  function Without<T(==)>(s: seq<T>, gone: set<T>): (kept: seq<T>)
  {
    if s == [] then []
    else Without(s[..|s| - 1], gone) + (if s[|s| - 1] in gone then [] else [s[|s| - 1]])
  }

  lemma OneMoreNoDuplicates<T>(a: seq<T>, x: T, b: seq<T>)
    requires NoDuplicates(a + b) && x !in a && x !in b
    ensures NoDuplicates(a + [x] + b)
    ensures forall y | y in a + [x] + b :: y == x || y in a + b
  {
    var l, k := a + [x] + b, |a|;
    assert forall i | 0 <= i < |l| && i != k :: l[i] == (a + b)[if i < k then i else i - 1];
  }

  /** What is kept is what is not gone, and no more often than before. */
  lemma {:induction false} WithoutKeeps<T>(s: seq<T>, gone: set<T>)
    ensures forall x :: x in Without(s, gone) <==> x in s && x !in gone
    ensures NoDuplicates(s) ==> NoDuplicates(Without(s, gone))
  {
    if s != [] {
      var k := |s| - 1;
      WithoutKeeps(s[..k], gone);
      assert s == s[..k] + [s[k]];
      assert NoDuplicates(s) ==> s[k] !in s[..k];
    }
  }

  lemma {:induction false} FlattenAppend<T>(batches: seq<seq<T>>, more: seq<seq<T>>)
    ensures Flatten(batches + more) == Flatten(batches) + Flatten(more)
  {
    if batches == [] {
      assert batches + more == more;
    } else {
      assert (batches + more)[1..] == batches[1..] + more;
      FlattenAppend(batches[1..], more);
    }
  }

  lemma FlattenOne<T>(batch: seq<T>)
    ensures Flatten([batch]) == batch
  {
    assert Flatten([batch]) == batch + Flatten<T>([]);
  }

  lemma {:induction false} FlattenSize<T>(batches: seq<seq<T>>)
    ensures |Flatten(batches)| == TotalSize(batches)
  {
    if batches != [] {
      FlattenSize(batches[1..]);
    }
  }
}
