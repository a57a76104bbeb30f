/** The pool's table of sessions, as the calls under its mutex change it. */
module Pools {
  import opened Sequences
  import R = RegistrySpec
  import W = WorkSplit

  /** What the pool needs to know of a session. */
  class Handle {
    var paused: bool
    var abort: bool   // cancellation requested

    constructor ()
      ensures !paused && !abort
    {
      paused, abort := false, false;
    }
  }

  class Pool {
    var allSessions: map<nat, Handle>
    var onlineSessions: seq<Handle>
    var killedSessions: seq<Handle>   // for the collector
    const split: W.Distributor
    ghost var Known: set<Handle>

    ghost function View(): (r: R.Registry<Handle>)
      reads this, Known
    {
      R.Registry(allSessions, onlineSessions, Known, set s | s in Known && s.abort, set s | s in Known && s.paused)
    }

    /** Beside the table's invariant: the killed sessions are those that were added and are no longer
      * registered, each once. */
    ghost predicate Valid()
      reads this, Known, split
    {
      && split.Valid()
      && R.Inv(View())
      && NoDuplicates(killedSessions)
      && (forall s | s in killedSessions :: s in Known && s !in allSessions.Values)
      && (forall s | s in Known :: s in allSessions.Values || s in killedSessions)
    }

    constructor (numProcs: nat)
      requires numProcs > 0
      ensures Valid() && View() == R.Empty() && fresh(split)
    {
      split := new W.Distributor(numProcs);
      allSessions := map[];
      onlineSessions, killedSessions := [], [];
      Known := {};
    }

    /** A session is added once, right after its creation. */
    method AddSession(aseq: Handle?, identity: nat) returns (res: bool)
      requires Valid()
      requires aseq != null ==> aseq !in Known && !aseq.paused && !aseq.abort
      modifies this
      ensures Valid()
      ensures res == (aseq != null && identity !in old(allSessions))
      ensures View() == if aseq == null then old(View()) else R.Step(old(View()), R.Add(identity, aseq))
      ensures killedSessions == old(killedSessions)
      ensures allSessions == if res then old(allSessions)[identity := aseq] else old(allSessions)
      ensures onlineSessions == old(onlineSessions) + if res then [aseq] else []
    {
      res := false;
      if aseq != null && identity !in allSessions {
        R.AddValues(View(), identity, aseq);
        R.StepKeepsInv(View(), R.Add(identity, aseq));
        allSessions := allSessions[identity := aseq];
        onlineSessions := onlineSessions + [aseq];
        Known := Known + {aseq};
        res := true;
        assert View() == R.Step(old(View()), R.Add(identity, aseq));
      }
    }

    method CancelSession(sessionId: nat) returns (res: bool)
      requires Valid()
      modifies this, Known
      ensures Valid()
      ensures res == (sessionId in old(allSessions))
      ensures View() == R.Step(old(View()), R.Cancel(sessionId))
      ensures killedSessions == old(killedSessions) + if res then [old(allSessions)[sessionId]] else []
      ensures res ==> old(allSessions)[sessionId].abort
      ensures sessionId !in allSessions && onlineSessions == old(onlineSessions)
      ensures forall k | k in old(allSessions) && k != sessionId ::
                k in allSessions && allSessions[k] == old(allSessions)[k]
    {
      res := false;
      if sessionId in allSessions {
        R.CancelValues(View(), sessionId);
        R.StepKeepsInv(View(), R.Cancel(sessionId));
        var ss := allSessions[sessionId];
        assert ss in allSessions.Values;
        ss.abort := true;
        allSessions := map k | k in allSessions && k != sessionId :: allSessions[k];
        killedSessions := killedSessions + [ss];
        res := true;
        assert View() == R.Step(old(View()), R.Cancel(sessionId));
      }
    }

    method PauseSession(sessionId: nat) returns (res: bool)
      requires Valid()
      modifies Known
      ensures Valid()
      ensures res == (sessionId in allSessions)
      ensures View() == R.Step(old(View()), R.Pause(sessionId))
      ensures res ==> allSessions[sessionId].paused
    {
      res := false;
      if sessionId in allSessions {
        R.StepKeepsInv(View(), R.Pause(sessionId));
        var ss := allSessions[sessionId];
        assert ss in allSessions.Values;
        ss.paused := true;
        res := true;
        assert View() == R.Step(old(View()), R.Pause(sessionId));
      }
    }

    method ResumeSession(sessionId: nat) returns (res: bool)
      requires Valid()
      modifies Known
      ensures Valid()
      ensures res == (sessionId in allSessions)
      ensures View() == R.Step(old(View()), R.Resume(sessionId))
      ensures res ==> !allSessions[sessionId].paused
    {
      res := false;
      if sessionId in allSessions {
        R.StepKeepsInv(View(), R.Resume(sessionId));
        var ss := allSessions[sessionId];
        assert ss in allSessions.Values;
        ss.paused := false;
        res := true;
        assert View() == R.Step(old(View()), R.Resume(sessionId));
      }
    }

    /** The table is walked in no particular order. */
    method CloneSessionsMap2Vector()
      requires forall k, l | k in allSessions && l in allSessions && k != l :: allSessions[k] != allSessions[l]
      modifies this`onlineSessions
      ensures NoDuplicates(onlineSessions)
      ensures forall s | s in onlineSessions :: s in allSessions.Values && !s.paused
      ensures forall s | s in allSessions.Values :: s.paused || s in onlineSessions
    {
      onlineSessions := [];
      var rest := allSessions.Keys;
      while rest != {}
        invariant rest <= allSessions.Keys
        invariant NoDuplicates(onlineSessions)
        invariant forall s | s in onlineSessions ::
                    !s.paused && exists k :: k in allSessions && k !in rest && allSessions[k] == s
        invariant forall k | k in allSessions && k !in rest ::
                    !allSessions[k].paused ==> allSessions[k] in onlineSessions
      {
        var iter :| iter in rest;
        if !allSessions[iter].paused {
          onlineSessions := onlineSessions + [allSessions[iter]];
        }
        rest := rest - {iter};
      }
    }

    /** A worker's look at its place in the list: the session to serve, if any. The slots are divided
      * first; the division lags, and a worker whose range, that for the size recorded by the call
      * before, is empty skips the round. After a rebuild the slots are divided again. */
    method Choose(selector: nat) returns (ss: Option<Handle>, ghost order: seq<Handle>)
      requires Valid()
      modifies this`onlineSessions, split
      ensures Valid()
      ensures var r, recorded := old(View()), old(split.View().recorded);
              var visits := recorded > 0 && selector < |r.online|;
              && ss == (if visits && R.Chooses(r, selector) then Some(r.online[selector]) else None)
              && View() == (if visits then R.Step(r, R.Visit(selector, order)) else r)
              && (visits && ss.None? ==> R.Rebuilds(r, R.Visit(selector, order)))
              && split.View() == W.Calls(old(split.View()),
                                         [|r.online|] + (if visits && ss.None? then [|order|] else []), split.numCPUs)
    {
      order := [];
      ss := None;
      ghost var plan := split.View();
      split.Divide(|onlineSessions|);
      W.OneOrTwoCalls(plan, |onlineSessions|, 0, split.numCPUs);
      W.SomeWork(plan.recorded, split.numCPUs);
      var tcr := split.vectProc2Bounds[0];
      if tcr.length == 0 || |onlineSessions| == 0 {
        return;
      }
      if selector >= |onlineSessions| {
        return;
      }
      assert onlineSessions[selector] in View().known;
      if onlineSessions[selector].abort {
        CloneSessionsMap2Vector();
        order := onlineSessions;
        R.StepKeepsInv(old(View()), R.Visit(selector, order));
        split.Divide(|onlineSessions|);
        W.OneOrTwoCalls(plan, |old(onlineSessions)|, |order|, split.numCPUs);
      } else {
        ss := Some(onlineSessions[selector]);
      }
    }
  }
}
