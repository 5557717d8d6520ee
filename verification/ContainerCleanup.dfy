/** Proving that one launched container is gone (scripts/bench/runner.py, `_execute_container`). */
module ContainerCleanup {
  // The engine's client submits a create request, the daemon carries it out later, and the client
  // learns of it later still; any of this may happen between any two steps of the owner.

  import opened Wrappers

  /** `code` is what waiting for the client returned; a killed client never returns zero. */
  datatype Client = Running | Exited(code: int)

  /** The create request of this container name. `Exists` covers running and stopped ones. */
  datatype Creation = NotSent | Pending | Exists | Removed | Rejected

  /** `cid`: the create ID file holds a complete ID. */
  datatype State = State(client: Client, creation: Creation, cid: bool)

  datatype Code = Exit(code: int) | Timeout

  /** What the client, the daemon and the container may do next. */
  ghost predicate EnvStep(s: State, t: State) {
    // The client submits its request, learns of the creation, or ends.
    || (s.client.Running? && s.creation == NotSent && t == s.(creation := Pending))
    || (s.client.Running? && s.creation in {Exists, Removed} && t == s.(cid := true))
    || (s.client.Running? && t.client.Exited? && t == s.(client := t.client)
        // A successful synchronous client has seen the daemon's answer.
        && (t.client.code == 0 ==> s.creation in {Exists, Removed}))
    // The daemon carries out or refuses the request.
    || (s.creation == Pending && t == s.(creation := Exists))
    || (s.creation == Pending && t == s.(creation := Rejected))
  }

  ghost predicate Trace(run: seq<State>, s: State, t: State) {
    && |run| > 0 && run[0] == s && run[|run| - 1] == t
    && forall i | 0 <= i < |run| - 1 :: EnvStep(run[i], run[i + 1])
  }

  ghost predicate Reaches(s: State, t: State) {
    exists run :: Trace(run, s, t)
  }

  /** What the owner does: it kills the client, or the daemon removes the container for it. */
  ghost predicate OwnerStep(s: State, t: State) {
    || (s.client.Running? && t == s.(client := Exited(-9)))
    || (s.creation == Exists && t == s.(creation := Removed))
  }

  /** A run of everyone together. */
  ghost predicate Path(run: seq<State>, s: State, t: State) {
    && |run| > 0 && run[0] == s && run[|run| - 1] == t
    && forall i | 0 <= i < |run| - 1 :: EnvStep(run[i], run[i + 1]) || OwnerStep(run[i], run[i + 1])
  }

  ghost predicate Evolves(s: State, t: State) {
    exists run :: Path(run, s, t)
  }

  lemma EvolvesOn(s: State, t: State, u: State)
    requires Evolves(s, t) && (t == u || EnvStep(t, u) || OwnerStep(t, u))
    ensures Evolves(s, u)
  {
    var run :| Path(run, s, t);
    if t != u {
      assert Path(run + [u], s, u);
    }
  }

  lemma {:induction false} EvolvesAlong(s: State, t: State, run: seq<State>, u: State)
    requires Evolves(s, t) && Trace(run, t, u)
    ensures Evolves(s, u)
    decreases |run|
  {
    if |run| > 1 {
      EvolvesOn(s, t, run[1]);
      EvolvesAlong(s, run[1], run[1..], u);
    }
  }

  lemma EvolvesSelf(s: State)
    ensures Evolves(s, s)
  {
    assert Path([s], s, s);
  }

  lemma EvolvesThrough(s: State, t: State, u: State)
    requires Evolves(s, t) && Reaches(t, u)
    ensures Evolves(s, u)
  {
    var run :| Trace(run, t, u);
    EvolvesAlong(s, t, run, u);
  }

  /** Evidence of the creation exists only when the daemon has carried it out. */
  ghost predicate Inv(s: State) {
    s.cid || s.client == Exited(0) ==> s.creation in {Exists, Removed}
  }

  /** No container of this name exists and none can come into existence. */
  predicate GoneForGood(s: State) {
    s.client.Exited? && s.creation in {NotSent, Removed, Rejected}
  }

  lemma {:induction false} TraceFacts(run: seq<State>, s: State, t: State)
    requires Inv(s) && Trace(run, s, t)
    ensures Inv(t)
    ensures s.client.Exited? ==> t.client == s.client && t.cid == s.cid
    ensures s.client.Exited? && s.creation != Pending ==> t == s
    ensures s.creation == Removed ==> t.creation == Removed
    decreases |run|
  {
    if |run| > 1 {
      TraceFacts(run[1..], run[1], t);
    }
  }

  /** Gone for good means for good: no later step brings the container back. */
  lemma GoneStays(s: State, t: State)
    requires Inv(s) && GoneForGood(s) && Reaches(s, t)
    ensures t == s
  {
    var run :| Trace(run, s, t);
    TraceFacts(run, s, t);
  }

  class Engine {
    var state: State

    constructor ()
      ensures state == State(Running, NotSent, false)
    {
      state := State(Running, NotSent, false);
    }

    /** Any number of steps of everything but the owner. Callers may assume no more than this. */
    method Interfere()
      requires Inv(state)
      modifies this
      ensures Reaches(old(state), state)
      ensures Inv(state)
      ensures old(state).creation in {Exists, Removed} ==> state.creation == old(state).creation
      ensures old(state).client.Exited? ==>
        state.client == old(state).client && state.cid == old(state).cid
      ensures old(state).client.Exited? && old(state).creation != Pending ==> state == old(state)
    {
      assert Trace([state], state, state);
    }

    /**
     `_remove_container`: forced removal, then an inspection. The daemon may be unreachable for
     either. True only if the inspection found no container of this name at that moment.
    */
    method Remove(reachesRemove: bool, reachesInspect: bool, ghost first: State) returns (absent: bool)
      requires Inv(state) && Evolves(first, state)
      modifies this
      ensures Evolves(first, state)
      ensures Inv(state)
      ensures old(state).client.Exited? ==>
        state.client == old(state).client && state.cid == old(state).cid
      ensures old(state).client.Exited? && old(state).creation == NotSent ==> state == old(state)
      ensures absent ==> reachesInspect && state.creation != Exists
      ensures reachesRemove && old(state).creation == Exists ==> state.creation == Removed
      ensures old(state).creation == Removed ==> state.creation == Removed
      ensures old(state).creation == Exists ==> state.creation in {Exists, Removed}
      ensures reachesRemove && reachesInspect ==>
        (old(state).client.Exited? && old(state).creation != Pending ==> absent)
    {
      ghost var s0 := state;
      Interfere();
      EvolvesThrough(first, s0, state);
      ghost var s1 := state;
      if reachesRemove && state.creation == Exists {
        state := state.(creation := Removed);
      }
      EvolvesOn(first, s1, state);
      ghost var s2 := state;
      Interfere();
      EvolvesThrough(first, s2, state);
      absent := reachesInspect && state.creation != Exists;
    }

    /** `_kill_process` and the wait for it. */
    method Kill(ghost first: State)
      requires Inv(state) && Evolves(first, state)
      modifies this
      ensures Evolves(first, state)
      ensures Inv(state) && state.client.Exited?
      ensures old(state).creation in {Exists, Removed} ==> state.creation == old(state).creation
    {
      ghost var s0 := state;
      Interfere();
      EvolvesThrough(first, s0, state);
      ghost var s1 := state;
      if state.client.Running? {
        state := state.(client := Exited(-9));
      }
      EvolvesOn(first, s1, state);
    }
  }

  /** Before the client runs, or when it could not be started. */
  function Submitting(started: bool): State { State(if started then Running else Exited(1), NotSent, false) }

  /** `_container_creation_acknowledged`. */
  predicate Acknowledged(cidFile: bool, cid: bool, code: Code) {
    if cidFile then cid else code == Exit(0)
  }

  /**
   `_execute_container`. `started`: its client could be started at all. `expired`: waiting for the
   client timed out. `reaped`: the killed client ended in time; otherwise the wait raises and there is no
   result. `answers`: whether the daemon can be reached for the removal and the inspection of each
   attempt to remove the container. The client is always reaped before the removal that counts, and the
   acknowledgment is read after it: that order is what makes the verdict safe. A container that is
   there when the time is up is removed in any case. `seen` is the state when the wait ended.
  */
  method ExecuteContainer(engine: Engine, cidFile: bool, started: bool, expired: bool, reaped: bool,
                          answers: nat -> (bool, bool)) returns (cleanup: Option<bool>, ghost seen: State)
    requires engine.state == Submitting(started)
    modifies engine
    ensures Inv(engine.state) && Evolves(old(engine.state), engine.state)
    ensures cleanup.None? <==> started && expired && !reaped
    ensures cleanup == Some(true) ==> GoneForGood(engine.state)
    ensures cleanup == Some(true) && started ==>
      if cidFile then engine.state.cid else !expired && engine.state.client == Exited(0)
    ensures cleanup == Some(false) && answers(1) == (true, true) ==>
      started && if cidFile then !engine.state.cid else expired || engine.state.client != Exited(0)
    ensures Evolves(old(engine.state), seen)
    ensures started && seen.creation == Exists && (answers(1).0 || (expired && answers(0).0)) ==>
      engine.state.creation == Removed
  {
    var code;
    ghost var first := engine.state;
    EvolvesSelf(first);
    seen := first;
    if !started {
      var absent := engine.Remove(answers(1).0, answers(1).1, first);
      return Some(absent), seen;
    }
    engine.Interfere();
    EvolvesThrough(first, first, engine.state);
    if expired {
      seen := engine.state;
      var _ := engine.Remove(answers(0).0, answers(0).1, first);
      if !reaped {
        var _ := engine.Remove(answers(1).0, answers(1).1, first);
        return None, seen;
      }
      engine.Kill(first);
      code := Timeout;
    } else {
      ghost var s := engine.state;
      if engine.state.client.Running? {
        // communicate() returns when the client has ended; let it end here.
        engine.state := engine.state.(client := Exited(1));
      }
      EvolvesOn(first, s, engine.state);
      seen := engine.state;
      code := Exit(engine.state.client.code);
    }
    var removed := engine.Remove(answers(1).0, answers(1).1, first);
    cleanup := Some(removed && Acknowledged(cidFile, engine.state.cid, code));
  }

  /**
   Which evidence is enough: for a reaped client, an inspection that finds nothing settles the
   matter exactly when the request is not still pending, and an acknowledgment excludes that.
  */
  lemma AbsenceIsProofUnlessPending(s: State, cidFile: bool)
    requires Inv(s) && s.client.Exited? && s.creation != Exists
    ensures (forall t | Reaches(s, t) :: t.creation != Exists) <==> s.creation != Pending
    ensures Acknowledged(cidFile, s.cid, Exit(s.client.code)) ==> s.creation != Pending
  {
    if s.creation == Pending {
      var t := s.(creation := Exists);
      assert EnvStep(s, t);
      assert Trace([s, t], s, t);
    } else {
      forall t | Reaches(s, t) ensures t == s {
        GoneStays(s, t);
      }
    }
  }
}
