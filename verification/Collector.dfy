/** The collector that owns what sessions are done with, and its two disposals. */
module Collectors {
  import opened Sequences

  const BATCH := 1000

  /** A data object or null. */
  datatype Ptr = Null | Obj(id: nat)

  /** The sessions of a list that are marked cancelled; only these are deleted. */
  function Cancelled(sessions: seq<nat>, cancelled: set<nat>): (dead: seq<nat>) {
    if sessions == [] then []
    else Cancelled(sessions[..|sessions| - 1], cancelled) +
         (if sessions[|sessions| - 1] in cancelled then [sessions[|sessions| - 1]] else [])
  }

  /** `part` is what remains of `all` when some entries are left out. */
  ghost predicate Subsequence<T>(part: seq<T>, all: seq<T>)
    decreases all
  {
    if all == [] then part == []
    else
      var k := |all| - 1;
      || Subsequence(part, all[..k])
      || (part != [] && part[|part| - 1] == all[k] && Subsequence(part[..|part| - 1], all[..k]))
  }

  /** What is deleted is a part of the list, in its order. */
  lemma {:induction false} DeletesInOrder(sessions: seq<nat>, cancelled: set<nat>)
    ensures Subsequence(Cancelled(sessions, cancelled), sessions)
  {
    if sessions != [] {
      var k := |sessions| - 1;
      var before, dead := Cancelled(sessions[..k], cancelled), Cancelled(sessions, cancelled);
      DeletesInOrder(sessions[..k], cancelled);
      if sessions[k] in cancelled {
        assert dead == before + [sessions[k]] && dead[..|before|] == before;
      } else {
        assert dead == before;
      }
    }
  }

  /** Every entry of a cancelled session is deleted as often as it was queued, and no other is. */
  lemma {:induction false} DeletesTheCancelled(sessions: seq<nat>, cancelled: set<nat>, id: nat)
    ensures multiset(Cancelled(sessions, cancelled))[id] == if id in cancelled then multiset(sessions)[id] else 0
  {
    if sessions != [] {
      var k := |sessions| - 1;
      var before, last := Cancelled(sessions[..k], cancelled), sessions[k];
      DeletesTheCancelled(sessions[..k], cancelled, id);
      assert sessions == sessions[..k] + [last];
      assert multiset(sessions) == multiset(sessions[..k]) + multiset{last};
      if last in cancelled {
        assert multiset(before + [last]) == multiset(before) + multiset{last};
      } else {
        assert Cancelled(sessions, cancelled) == before;
      }
    }
  }

  class Collector {
    var userData: seq<Ptr>
    var wrappers: seq<nat>
    var killedSessions: seq<nat>
    ghost var deletedData: seq<Ptr>
    ghost var deletedWrappers: seq<nat>
    ghost var deletedSessions: seq<nat>

    constructor ()
      ensures userData == [] && wrappers == [] && killedSessions == []
      ensures deletedData == [] && deletedWrappers == [] && deletedSessions == []
    {
      userData, wrappers, killedSessions := [], [], [];
      deletedData, deletedWrappers, deletedSessions := [], [], [];
    }

    method CastData(p: Ptr)
      modifies this`userData
      ensures userData == old(userData) + [p]
    {
      userData := userData + [p];
    }

    /** Deletes at most `BATCH` entries of each kind, oldest first. What is deleted and what is left
      * is, in order, what was there. */
    method Dispose(cancelled: set<nat>)
      modifies this
      ensures deletedData + userData == old(deletedData + userData)
      ensures |userData| == |old(userData)| - Min(BATCH, |old(userData)|)
      ensures deletedWrappers + wrappers == old(deletedWrappers + wrappers)
      ensures |wrappers| == |old(wrappers)| - Min(BATCH, |old(wrappers)|)
      ensures killedSessions == old(killedSessions)[Min(BATCH, |old(killedSessions)|)..]
      ensures deletedSessions == old(deletedSessions)
                + Cancelled(old(killedSessions)[..Min(BATCH, |old(killedSessions)|)], cancelled)
    {
      DisposeUpTo(BATCH, cancelled);
    }

    /** Deletes everything. */
    method DisposeAll(cancelled: set<nat>)
      modifies this
      ensures userData == [] && deletedData == old(deletedData + userData)
      ensures wrappers == [] && deletedWrappers == old(deletedWrappers + wrappers)
      ensures killedSessions == []
      ensures deletedSessions == old(deletedSessions) + Cancelled(old(killedSessions), cancelled)
    {
      var longest := |userData| + |wrappers| + |killedSessions|;
      assert killedSessions[..|killedSessions|] == killedSessions;
      DisposeUpTo(longest, cancelled);
      assert deletedData + userData == deletedData;
      assert deletedWrappers + wrappers == deletedWrappers;
    }

    method DisposeUpTo(limit: nat, cancelled: set<nat>)
      modifies this
      ensures deletedData + userData == old(deletedData + userData)
      ensures |userData| == |old(userData)| - Min(limit, |old(userData)|)
      ensures deletedWrappers + wrappers == old(deletedWrappers + wrappers)
      ensures |wrappers| == |old(wrappers)| - Min(limit, |old(wrappers)|)
      ensures killedSessions == old(killedSessions)[Min(limit, |old(killedSessions)|)..]
      ensures deletedSessions == old(deletedSessions)
                + Cancelled(old(killedSessions)[..Min(limit, |old(killedSessions)|)], cancelled)
    {
      var t := 0;
      while t < limit && |userData| > 0
        invariant 0 <= t <= limit
        invariant deletedData + userData == old(deletedData + userData)
        invariant |userData| == |old(userData)| - t
        modifies `userData, `deletedData
      {
        assert userData == [userData[0]] + userData[1..];
        deletedData, userData := deletedData + [userData[0]], userData[1..];
        t := t + 1;
      }
      t := 0;
      while t < limit && |wrappers| > 0
        invariant 0 <= t <= limit
        invariant deletedWrappers + wrappers == old(deletedWrappers + wrappers)
        invariant |wrappers| == |old(wrappers)| - t
        modifies `wrappers, `deletedWrappers
      {
        assert wrappers == [wrappers[0]] + wrappers[1..];
        deletedWrappers, wrappers := deletedWrappers + [wrappers[0]], wrappers[1..];
        t := t + 1;
      }
      DisposeSessions(limit, cancelled);
    }

    method DisposeSessions(limit: nat, cancelled: set<nat>)
      modifies `killedSessions, `deletedSessions
      ensures killedSessions == old(killedSessions)[Min(limit, |old(killedSessions)|)..]
      ensures deletedSessions == old(deletedSessions)
                + Cancelled(old(killedSessions)[..Min(limit, |old(killedSessions)|)], cancelled)
    {
      var t := 0;
      ghost var all := killedSessions;
      while t < limit && |killedSessions| > 0
        invariant 0 <= t <= limit && t <= |all|
        invariant killedSessions == all[t..]
        invariant deletedSessions == old(deletedSessions) + Cancelled(all[..t], cancelled)
      {
        var ts := killedSessions[0];
        assert all[..t + 1][..t] == all[..t];
        killedSessions := killedSessions[1..];
        if ts in cancelled {
          deletedSessions := deletedSessions + [ts];
        }
        t := t + 1;
      }
    }
  }
}
