/**
 One measured launch of a campaign (scripts/bench/runner.py, `execute`): the intent is recorded, the
 container or the process tree is run and cleaned up, and the intent is cleared on its verdict. That
 is shown to be a run of the machine of CampaignOwnership, step by step.
*/
module MeasuredLaunch {
  import opened CampaignOwnership
  import ContainerCleanup
  import opened LaunchRecord
  import NativeSupervisor
  import ProcessForest
  import opened Wrappers

  /** How the run of a container goes; the fields are the parameters of `ExecuteContainer`. */
  datatype ContainerRun = ContainerRun(cidFile: bool, started: bool, expired: bool, reaped: bool, answers: nat -> (bool, bool))

  /**
   How the run of a native command goes: whether the supervisor could be started, what happens in
   it, and whether it ended in time and left a valid report.
  */
  datatype NativeRun = NativeRun(spawned: bool, command: int, limit: nat, supported: bool, launch: NativeSupervisor.Launch, signalled: bool,
                                 reported: bool)

  /** The intent is in the file and nothing is launched yet. */
  ghost function Intended(c: Codec, w: World, e: Entry): World
    requires w.phase.Owning?
  {
    AllWritten(c, Persist(w, w.phase.pid, Intent(w.phase.pid, e), Some(Armed)))
  }

  /** An owner with nothing in flight is about to launch this. */
  ghost predicate Launching(w: World, e: Entry) {
    && w.phase.Owning? && w.phase.stage == Ready && w.phase.record == Active(w.phase.pid) && Works(w) == {}
    && WellFormed(e) && (e.kind == "container" ==> e.workspace !in w.cids)
  }

  /** The launch is under way or over, and nothing else has changed for its owner. */
  ghost predicate Underway(c: Codec, w: World, w': World, e: Entry)
    requires w.phase.Owning?
  {
    && Reaches(c, w, w', true) && Works(w') <= {Work(w.phase.pid, e)}
    && w'.phase == Owning(w.phase.pid, Intent(w.phase.pid, e), Running)
    && w'.file == c.encode(Intent(w.phase.pid, e))
  }

  // Containers.

  /**
   The state of a container, as the machine sees it: a creation is pending while the client or the
   daemon may still carry it out.
  */
  ghost predicate Mirrors(s: ContainerCleanup.State, w: World, j: Work) {
    && (j in w.pending <==> s.creation.Pending? || (s.creation.NotSent? && s.client.Running?))
    && (j in w.alive <==> s.creation.Exists?)
    && (j.entry.workspace in w.cids <==> s.cid)
  }

  lemma ContainerStep(c: Codec, w: World, w1: World, e: Entry, s: ContainerCleanup.State, t: ContainerCleanup.State)
    returns (w2: World)
    requires w.phase.Owning? && Underway(c, w, w1, e) && Mirrors(s, w1, Work(w.phase.pid, e))
    requires ContainerCleanup.EnvStep(s, t) || ContainerCleanup.OwnerStep(s, t)
    ensures Underway(c, w, w2, e) && Mirrors(t, w2, Work(w.phase.pid, e))
  {
    var j := Work(w.phase.pid, e);
    if t.creation == s.creation && t.client == s.client && t.cid {
      w2 := w1.(cids := w1.cids + {e.workspace});
      ReachStep(c, w, w1, w2, Acknowledge(e.workspace), true);
    } else if s.creation.Pending? && t.creation.Exists? {
      w2 := w1.(pending := w1.pending - {j}, alive := w1.alive + {j});
      ReachStep(c, w, w1, w2, CreateLands(j), true);
    } else if j in w1.pending && !(t.creation.Pending? || (t.creation.NotSent? && t.client.Running?)) {
      w2 := w1.(pending := w1.pending - {j});
      ReachStep(c, w, w1, w2, CreateFails(j), true);
    } else if s.creation.Exists? && t.creation.Removed? {
      w2 := w1.(alive := w1.alive - {j});
      ReachStep(c, w, w1, w2, WorkEnds(j), true);
    } else {
      w2 := w1;
    }
  }

  lemma {:induction false} ContainerPath(c: Codec, w: World, w1: World, e: Entry, run: seq<ContainerCleanup.State>,
                                         s: ContainerCleanup.State, t: ContainerCleanup.State) returns (w2: World)
    requires w.phase.Owning? && Underway(c, w, w1, e) && Mirrors(s, w1, Work(w.phase.pid, e))
    requires ContainerCleanup.Path(run, s, t)
    ensures Underway(c, w, w2, e) && Mirrors(t, w2, Work(w.phase.pid, e))
    decreases |run|
  {
    if |run| == 1 {
      w2 := w1;
    } else {
      w2 := ContainerStep(c, w, w1, e, s, run[1]);
      w2 := ContainerPath(c, w, w2, e, run[1..], run[1], t);
    }
  }

  /** A container that was cleaned up as its run went is followed by the machine. */
  lemma ContainerFollowed(c: Codec, w: World, e: Entry, started: bool, s: ContainerCleanup.State) returns (w': World)
    requires c.Valid() && Launching(w, e) && e.kind == "container"
    requires ContainerCleanup.Evolves(ContainerCleanup.Submitting(started), s)
    ensures Underway(c, w, w', e) && Mirrors(s, w', Work(w.phase.pid, e))
  {
    var w0, j := Intended(c, w, e), Work(w.phase.pid, e);
    IntendedIsReached(c, w, e);
    assert Launchable(w0, j);
    var w1 := w0.(pending := if started then {j} else {}, phase := w0.phase.(stage := Running));
    if started {
      assert w1 == w0.(pending := w0.pending + {j}, phase := w0.phase.(stage := Running));
      ReachStep(c, w, w0, w1, LaunchPending, true);
    } else {
      ReachStep(c, w, w0, w1, LaunchFails, true);
    }
    var run :| ContainerCleanup.Path(run, ContainerCleanup.Submitting(started), s);
    w' := ContainerPath(c, w, w1, e, run, ContainerCleanup.Submitting(started), s);
  }

  lemma IntendedIsReached(c: Codec, w: World, e: Entry)
    requires c.Valid() && Launching(w, e)
    ensures Reaches(c, w, Intended(c, w, e), true)
  {
    ReachSelf(c, w, true);
    StepAndWrite(c, w, w, Persist(w, w.phase.pid, Intent(w.phase.pid, e), Some(Armed)), Begin(e), true);
  }

  // Process trees and jobs.

  /** Work that was started, or not, and is over or not. */
  lemma TreeFollowed(c: Codec, w: World, e: Entry, started: bool, left: bool) returns (w': World)
    requires c.Valid() && Launching(w, e) && e.kind != "container" && (left ==> started)
    ensures Underway(c, w, w', e) && (Work(w.phase.pid, e) in Works(w') <==> left)
  {
    var w0, j := Intended(c, w, e), Work(w.phase.pid, e);
    IntendedIsReached(c, w, e);
    assert Launchable(w0, j);
    var w1 := w0.(alive := if started then {j} else {}, phase := w0.phase.(stage := Running));
    if started {
      assert w1 == w0.(alive := w0.alive + {j}, phase := w0.phase.(stage := Running));
      ReachStep(c, w, w0, w1, Launch, true);
    } else {
      ReachStep(c, w, w0, w1, LaunchFails, true);
    }
    w' := if left then w1 else w1.(alive := {});
    if started && !left {
      assert w' == w1.(alive := w1.alive - {j});
      ReachStep(c, w, w1, w', WorkEnds(j), true);
    }
  }

  /** `_execute_native` on Linux: the supervisor's verdict counts only if its report is there and valid. */
  method ExecuteNative(kernel: NativeSupervisor.Kernel, r: NativeRun) returns (cleanup: bool)
    requires kernel.table.procs == map[] && r.command != kernel.self
    modifies kernel
    ensures cleanup <==> !r.spawned || (r.reported && r.supported && kernel.table.procs == map[])
    ensures !r.spawned ==> kernel.table.procs == map[]
  {
    if !r.spawned {
      return true;
    }
    var exit, clean, _, _, _ := NativeSupervisor.Supervise(kernel, r.command, r.limit, r.supported, r.launch, r.signalled);
    cleanup := r.reported && clean;
  }

  /** The machine after `execute`. */
  ghost function Executed(c: Codec, w: World, cleanup: bool): World
    requires w.phase.Owning?
  {
    if cleanup then AllWritten(c, Persist(w, w.phase.pid, Active(w.phase.pid), Some(Ready))) else w
  }

  lemma ClearedIsReached(c: Codec, w: World, w1: World, e: Entry, cleanup: bool)
    requires c.Valid() && w.phase.Owning? && Underway(c, w, w1, e) && (cleanup ==> Work(w.phase.pid, e) !in Works(w1))
    ensures Reaches(c, w, Executed(c, w1, cleanup), true)
  {
    if cleanup {
      assert Works(w1) == {};
      StepAndWrite(c, w, w1, Persist(w1, w.phase.pid, Active(w.phase.pid), Some(Ready)), Complete, true);
    }
  }

  /** What the verdict on a cleanup is, given how the run has ended. */
  ghost predicate Judged(e: Entry, s: ContainerCleanup.State, k: map<int, ProcessForest.Process>, cr: ContainerRun,
                         nr: NativeRun, jobGone: bool, cleanup: Option<bool>)
  {
    if e.kind == "container" then
      && (cleanup.None? <==> cr.started && cr.expired && !cr.reaped)
      && (cleanup == Some(true) && cr.started ==>
            if cr.cidFile then s.cid else !cr.expired && s.client == ContainerCleanup.Exited(0))
      && (cleanup == Some(false) && cr.answers(1) == (true, true) ==>
            cr.started && if cr.cidFile then !s.cid else cr.expired || s.client != ContainerCleanup.Exited(0))
    else if e.kind == "windows-job" then cleanup == Some(jobGone)
    else cleanup == Some(!nr.spawned || (nr.reported && nr.supported && k == map[]))
  }

  /** Runs the command and its cleanup; none means that an exception was raised instead of a verdict. */
  method Measure(c: Codec, e: Entry, engine: ContainerCleanup.Engine, kernel: NativeSupervisor.Kernel, cr: ContainerRun, nr: NativeRun,
                 jobGone: bool, ghost w: World) returns (cleanup: Option<bool>, ghost after: World)
    requires c.Valid() && engine.state == ContainerCleanup.Submitting(cr.started)
    requires kernel.table.procs == map[] && nr.command != kernel.self
    modifies engine, kernel
    ensures Judged(e, engine.state, kernel.table.procs, cr, nr, jobGone, cleanup)
    ensures Launching(w, e) ==> Underway(c, w, after, e)
    ensures Launching(w, e) && cleanup == Some(true) ==> Works(after) == {}
    ensures Launching(w, e) && e.kind == "container" ==> Mirrors(engine.state, after, Work(w.phase.pid, e))
    ensures Launching(w, e) && e.kind == "native" ==> (Works(after) == {} <==> kernel.table.procs == map[])
  {
    after := w;
    if e.kind == "container" {
      ghost var seen;
      cleanup, seen := ContainerCleanup.ExecuteContainer(engine, cr.cidFile, cr.started, cr.expired, cr.reaped, cr.answers);
      if Launching(w, e) {
        after := ContainerFollowed(c, w, e, cr.started, engine.state);
      }
    } else if e.kind == "windows-job" {
      cleanup := Some(jobGone);
      if Launching(w, e) {
        after := TreeFollowed(c, w, e, true, !jobGone);
      }
    } else {
      var clean := ExecuteNative(kernel, nr);
      cleanup := Some(clean);
      if Launching(w, e) {
        after := TreeFollowed(c, w, e, nr.spawned, kernel.table.procs != map[]);
      }
    }
  }

  /**
   `execute`: the intent is on disk before the command runs, and it is removed only on the verdict
   that its work is gone; an unproven cleanup, or an exception, leaves the intent on disk.
  */
  method Execute(owner: CampaignOwner, e: Entry, engine: ContainerCleanup.Engine, kernel: NativeSupervisor.Kernel, cr: ContainerRun,
                 nr: NativeRun, jobGone: bool, ghost w: World)
    returns (launched: bool, cleanup: Option<bool>, ghost after: World)
    requires owner.Valid() && owner.Synced() && engine.state == ContainerCleanup.Submitting(cr.started)
    requires kernel.table.procs == map[] && nr.command != kernel.self
    modifies owner, owner.lock, engine, kernel
    ensures owner.Valid() && owner.Synced()
    ensures launched <==> old(owner.record).inFlight == Some([])
    ensures if launched then Judged(e, engine.state, kernel.table.procs, cr, nr, jobGone, cleanup) else cleanup.None?
    ensures owner.record == if launched && cleanup != Some(true)
                            then old(owner.record).(inFlight := Some([Some(e)]))
                            else old(owner.record)
    ensures Launching(w, e) && old(owner.record) == w.phase.record ==>
      && launched && Reaches(owner.codec, w, after, true)
      && after.file == owner.lock.content && after.phase.Owning? && after.phase.record == owner.record
      && (cleanup == Some(true) ==> Works(after) == {})
      && (e.kind == "container" ==> Mirrors(engine.state, after, Work(w.phase.pid, e)))
      && (e.kind == "native" ==> (Works(after) == {} <==> kernel.table.procs == map[]))
  {
    ghost var c := owner.codec;
    cleanup, after := None, w;
    var token := owner.Begin(e);
    launched := token.Ok?;
    if launched {
      cleanup, after := Measure(owner.codec, e, engine, kernel, cr, nr, jobGone, w);
      if Launching(w, e) {
        ClearedIsReached(c, w, after, e, cleanup == Some(true));
        after := Executed(c, after, cleanup == Some(true));
      }
      if cleanup == Some(true) {
        var done := owner.Complete(token.value);
        assert done.Ok?;
      }
    }
  }
}
