/** Crash-safe ownership of the machine by one benchmark campaign (scripts/bench/runner.py). */
module CampaignOwnership {
  // A kernel lock that dies with its holder, a launch intent written before every launch, and the
  // reconciliation of a dead owner's record. Every interleaving of any number of orchestrator
  // processes, of the work they launched and of crashes at any character of a write is a run of
  // the step machine below.

  import opened Wrappers
  import opened LaunchRecord
  import opened Text

  const CONTAINER_PREFIX := "davinci-bench-"

  /** A container target that reconciliation is willing to remove. */
  predicate NamesOurContainer(target: Option<seq<string>>) {
    && target.Some?
    && |target.value| == 2
    && target.value[0] != "" && CONTAINER_PREFIX <= target.value[1]
  }

  predicate PidAlive(live: set<int>, pid: Option<int>) {
    pid.None? || pid.value <= 0 || pid.value in live
  }

  /** `removed` holds the targets whose forced removal ended with "no such container". */
  predicate ProvenGone(item: Option<Entry>, removed: set<seq<string>>) {
    && item.Some?
    && (if item.value.kind == "container"
        then NamesOurContainer(item.value.container) && item.value.container.value in removed
        else item.value.kind == "windows-job")
  }

  predicate Reconcilable(record: Option<Record>, live: set<int>, removed: set<seq<string>>) {
    && record.Some? && record.value.schema == 1 && record.value.inFlight.Some?
    && !PidAlive(live, record.value.pid)
    && forall item | item in record.value.inFlight.value :: ProvenGone(item, removed)
  }

  predicate CleanRecord(record: Option<Record>) {
    record.Some? && record.value.schema == 1 && record.value.status == "clean"
    && record.value.inFlight == Some([])
  }

  /** May a new campaign start, given the text of the lock file? */
  predicate Admits(codec: Codec, text: string, live: set<int>, removed: set<seq<string>>) {
    var previous := Strip(text);
    previous == "" || CleanRecord(codec.decode(previous))
    || Reconcilable(codec.decode(previous), live, removed)
  }

  /** `_reconcile_abandoned`: visits the entries in order and stops at the first not proven gone. */
  method ReconcileAbandoned(record: Option<Record>, live: set<int>, removed: set<seq<string>>)
    returns (gone: bool)
    ensures gone <==> Reconcilable(record, live, removed)
  {
    if record.None? || record.value.schema != 1 {
      return false;
    }
    if record.value.inFlight.None? || PidAlive(live, record.value.pid) {
      return false;
    }
    var items := record.value.inFlight.value;
    for i := 0 to |items|
      invariant forall j | 0 <= j < i :: ProvenGone(items[j], removed)
    {
      assert items[i] in items;
      if items[i].None? {
        return false;
      }
      var e := items[i].value;
      if e.kind == "container" {
        if !NamesOurContainer(e.container) {
          return false;
        }
        if e.container.value !in removed {
          return false;
        }
      } else if e.kind != "windows-job" {
        return false;
      }
    }
    return true;
  }

  /** Work that an owner process launched: a container, a Windows job or a native process tree. */
  datatype Work = Work(owner: int, entry: Entry)

  /** The entries that `begin` writes: a container is named by its target, other kinds have none. */
  predicate WellFormed(e: Entry) {
    && e.kind in {"container", "windows-job", "native"}
    && (if e.kind == "container" then NamesOurContainer(e.container) else e.container.None?)
  }

  datatype Stage = Ready | Armed | Running | Unwinding

  /**
   What the holder of the kernel lock is doing. While it is Persisting, `k` characters of the
   overwrite of `prior` are in the file; afterwards it is in stage `next`, or has left.
  */
  datatype Phase =
    | Idle
    | Checking(pid: int)
    | Persisting(pid: int, record: Record, prior: string, k: nat, next: Option<Stage>)
    | Owning(pid: int, record: Record, stage: Stage)

  /**
   `pending` is container work whose creation the daemon has not finished, and `cids` holds the
   workspaces beside which a create ID file stands.
  */
  datatype World = World(file: string, live: set<int>, alive: set<Work>, pending: set<Work>,
                         cids: set<string>, phase: Phase)

  function Works(w: World): set<Work> { w.alive + w.pending }

  /** A fresh lock file; create ID files of earlier times may be lying about. */
  ghost predicate Init(w: World) {
    w.file == "" && w.alive == {} && w.pending == {} && w.phase == Idle
    && forall p | p in w.live :: 0 < p
  }

  predicate Holds(w: World, pid: int) { !w.phase.Idle? && w.phase.pid == pid }

  function Persist(w: World, pid: int, record: Record, next: Option<Stage>): World {
    w.(phase := Persisting(pid, record, w.file, 0, next))
  }

  /** Where a process stands once its record is written. */
  function Written(p: Phase): Phase
    requires p.Persisting?
  {
    if p.next.None? then Idle else Owning(p.pid, p.record, p.next.value)
  }

  /** Closing a dead owner's handle ends the job objects it created. */
  function AfterDeath(alive: set<Work>, p: int): set<Work> {
    set j | j in alive && !(j.owner == p && j.entry.kind == "windows-job")
  }

  datatype Step =
    | Spawn(p: int)
    | Acquire(p: int)
    | Refuse
    | Admit(removed: set<seq<string>>, survivors: set<Work>)
    | WriteOne
    | Shorten
    | WriteFails
    | Begin(e: Entry)
    | Launch
    | LaunchPending
    | LaunchFails
    | Complete
    | Leave
    | Crash(p: int)
    | WorkEnds(j: Work)
    | CreateLands(j: Work)
    | CreateFails(j: Work)
    | Acknowledge(workspace: string)

  /** The work of the single entry in flight. */
  predicate CurrentWork(w: World, j: Work) {
    w.phase.Owning? && w.phase.record.inFlight == Some([Some(j.entry)]) && j.owner == w.phase.pid
  }

  /** The engine's client refuses to start where a create ID file already stands. */
  predicate Launchable(w: World, j: Work) {
    CurrentWork(w, j) && (j.entry.kind == "container" ==> j.entry.workspace !in w.cids)
  }

  ghost predicate NextStep(c: Codec, w: World, w': World, step: Step) {
    match step
    case Spawn(p) => 0 < p && p !in w.live && w' == w.(live := w.live + {p})
    case Acquire(p) => w.phase.Idle? && p in w.live && w' == w.(phase := Checking(p))
    case Refuse => w.phase.Checking? && w' == w.(phase := Idle)
    case Admit(removed, survivors) =>
      && w.phase.Checking?
      && Admits(c, w.file, w.live, removed)
      // Removing containers only ends work; a confirmed removal leaves none of that name.
      && survivors <= w.alive
      && (forall j | j in survivors :: j.entry.container.None? || j.entry.container.value !in removed)
      && w' == Persist(w.(alive := survivors), w.phase.pid, Active(w.phase.pid), Some(Ready))
    case WriteOne =>
      && w.phase.Persisting?
      && var data := c.encode(w.phase.record);
      && w.phase.k < |Padded(data, |w.phase.prior|)|
      && w' == w.(phase := w.phase.(k := w.phase.k + 1),
                  file := Overwritten(w.phase.prior, data, w.phase.k + 1))
    case Shorten =>
      && w.phase.Persisting?
      && var data := c.encode(w.phase.record);
      && w.phase.k == |Padded(data, |w.phase.prior|)| && |data| <= |w.file|
      && w' == w.(file := w.file[..|data|],
                  phase := Written(w.phase))
    case WriteFails =>
      w.phase.Persisting? && w' == w.(phase := Owning(w.phase.pid, w.phase.record, Unwinding))
    case Begin(e) =>
      && w.phase.Owning? && w.phase.stage == Ready && w.phase.record.inFlight == Some([])
      && WellFormed(e)
      && w' == Persist(w, w.phase.pid, Intent(w.phase.pid, e), Some(Armed))
    case Launch =>
      && w.phase.Owning? && w.phase.stage == Armed
      && exists j | Launchable(w, j) ::
           w' == w.(alive := w.alive + {j}, phase := w.phase.(stage := Running))
    case LaunchPending =>
      && w.phase.Owning? && w.phase.stage == Armed
      && exists j | Launchable(w, j) && j.entry.kind == "container" ::
           w' == w.(pending := w.pending + {j}, phase := w.phase.(stage := Running))
    case LaunchFails =>
      w.phase.Owning? && w.phase.stage == Armed && w' == w.(phase := w.phase.(stage := Running))
    case Complete =>
      // `cleanup_complete` is reported only when the launched work is gone for good.
      && w.phase.Owning? && w.phase.stage == Running
      && (forall j | j in Works(w) :: !CurrentWork(w, j))
      && w' == Persist(w, w.phase.pid, Active(w.phase.pid), Some(Ready))
    case Leave =>
      && w.phase.Owning?
      && w' == (if w.phase.record.inFlight == Some([])
                then Persist(w, w.phase.pid, Finished(w.phase.pid), None)
                else w.(phase := Idle))
    case Crash(p) =>
      // The kernel drops the dead process's lock and kills its job objects; nothing else.
      && p in w.live
      && w' == w.(live := w.live - {p},
                  alive := AfterDeath(w.alive, p),
                  phase := if Holds(w, p) then Idle else w.phase)
    case WorkEnds(j) => j in w.alive && w' == w.(alive := w.alive - {j})
    case CreateLands(j) =>
      j in w.pending && w' == w.(pending := w.pending - {j}, alive := w.alive + {j})
    case CreateFails(j) => j in w.pending && w' == w.(pending := w.pending - {j})
    case Acknowledge(workspace) =>
      // The client writes the ID only when the daemon has answered its request.
      && (forall j | j in w.pending :: j.entry.workspace != workspace)
      && w' == w.(cids := w.cids + {workspace})
  }

  /**
   The evidence a normal cleanup asks for, read from a dead owner's record: the create ID file of
   every container named there.
  */
  predicate Acknowledged(record: Option<Record>, cids: set<string>) {
    record.Some? && record.value.inFlight.Some? ==>
      forall item | item in record.value.inFlight.value ::
        item.Some? && item.value.kind == "container" ==> item.value.workspace in cids
  }

  /** An admission that asks for this evidence as well. */
  predicate Careful(c: Codec, w: World) {
    Strip(w.file) == "" || Acknowledged(c.decode(Strip(w.file)), w.cids)
  }

  ghost predicate CarefulStep(c: Codec, w: World, w': World, step: Step) {
    NextStep(c, w, w', step) && (step.Admit? ==> Careful(c, w))
  }

  /** The file shows the intent of every piece of work, so it shows at most one. */
  ghost predicate Recorded(c: Codec, w: World) {
    forall j | j in Works(w) ::
      && w.file == c.encode(Intent(j.owner, j.entry))
      && 0 < j.owner
      && WellFormed(j.entry)
      && (j in w.pending ==> j.entry.kind == "container" && j.entry.workspace !in w.cids)
      && (j.entry.kind == "windows-job" ==> j.owner in w.live)
  }

  ghost predicate PersistingInv(c: Codec, w: World)
    requires w.phase.Persisting?
  {
    var p := w.phase;
    && Works(w) == {}
    && p.k <= |Padded(c.encode(p.record), |p.prior|)|
    && w.file == Overwritten(p.prior, c.encode(p.record), p.k)
    && OwnRecord(p.record, p.pid)
    && (p.next == Some(Ready) ==> p.record == Active(p.pid))
  }

  ghost predicate OwningInv(c: Codec, w: World)
    requires w.phase.Owning?
  {
    var p := w.phase;
    && OwnRecord(p.record, p.pid)
    && (p.stage != Unwinding ==> w.file == c.encode(p.record))
    && (p.stage == Ready ==> p.record == Active(p.pid))
    && (p.stage != Running ==> Works(w) == {})
  }

  ghost predicate PhaseInv(c: Codec, w: World) {
    && (w.phase.Persisting? ==> PersistingInv(c, w))
    && (w.phase.Owning? ==> OwningInv(c, w))
  }

  ghost predicate OwnRecord(record: Record, pid: int) {
    || record in {Active(pid), Finished(pid)}
    || (exists e :: record == Intent(pid, e) && WellFormed(e))
  }

  ghost predicate Inv(c: Codec, w: World) {
    Recorded(c, w) && PhaseInv(c, w)
    && (forall p | p in w.live :: 0 < p)
    && (w.phase.Idle? || w.phase.pid in w.live)
  }

  /** Two pieces of work are never outstanding at once. */
  lemma AtMostOne(c: Codec, w: World)
    requires c.Valid() && Inv(c, w)
    ensures |Works(w)| <= 1
  {
    if Works(w) != {} {
      var j :| j in Works(w);
      forall i | i in Works(w) ensures i == j {
        assert c.decode(c.encode(Intent(i.owner, i.entry))) == Some(Intent(i.owner, i.entry));
        assert c.decode(c.encode(Intent(j.owner, j.entry))) == Some(Intent(j.owner, j.entry));
      }
      assert Works(w) == {j};
    }
  }

  /**
   Whatever outlived its owner is a container that this admission has removed; nothing is alive
   afterwards, and with its creation acknowledged nothing is left at all.
  */
  lemma AdmissionFindsNoWork(c: Codec, w: World, w': World, step: Step)
    requires c.Valid() && Inv(c, w) && NextStep(c, w, w', step) && step.Admit?
    ensures w'.alive == {}
    ensures Careful(c, w) ==> w'.pending == {}
  {
    forall j | j in Works(w)
      ensures j.entry.kind == "container" && j.entry.container.value in step.removed
      ensures Careful(c, w) ==> j !in w.pending
    {
      var r := Intent(j.owner, j.entry);
      StripEncoded(c, r);
      assert Some(j.entry) in r.inFlight.value;
      assert ProvenGone(Some(j.entry), step.removed);
    }
  }

  /** While a campaign owns the machine, what is outstanding is its own current launch. */
  lemma OwnersWork(c: Codec, w: World)
    requires c.Valid() && Inv(c, w) && w.phase.Owning?
    ensures forall j | j in Works(w) :: CurrentWork(w, j)
  {
    forall j | j in Works(w) ensures CurrentWork(w, j) {
      assert c.decode(w.file) == Some(w.phase.record);
      assert c.decode(w.file) == Some(Intent(j.owner, j.entry));
    }
  }

  /** The steps that find, or need, an idle machine. */
  predicate Writes(step: Step) { step.Admit? || step.Complete? || step.WriteOne? || step.Shorten? }

  lemma StartKeepsInv(c: Codec, w: World, pid: int, record: Record, next: Option<Stage>)
    requires Works(w) == {} && OwnRecord(record, pid) && (next == Some(Ready) ==> record == Active(pid))
    ensures PhaseInv(c, Persist(w, pid, record, next))
  {
  }

  /** Starting to write a record onto an idle machine, and reaching the end of the write. */
  lemma WritingKeepsInv(c: Codec, w: World, w': World, step: Step)
    requires c.Valid() && Inv(c, w) && NextStep(c, w, w', step) && Writes(step)
    requires step.Admit? ==> w'.pending == {}
    ensures Works(w') == {} && PhaseInv(c, w')
  {
    match step {
      case Admit(_, survivors) =>
        AdmissionFindsNoWork(c, w, w', step);
        StartKeepsInv(c, w.(alive := survivors), w.phase.pid, Active(w.phase.pid), Some(Ready));
      case Complete =>
        OwnersWork(c, w);
        StartKeepsInv(c, w, w.phase.pid, Active(w.phase.pid), Some(Ready));
      case Shorten => PersistCrashPoints(w.phase.prior, c.encode(w.phase.record), w.phase.k);
      case WriteOne =>
    }
  }

  lemma BeginKeepsPhase(c: Codec, w: World, w': World, step: Step)
    requires c.Valid() && Inv(c, w) && NextStep(c, w, w', step) && (step.Begin? || step.Leave?)
    ensures PhaseInv(c, w')
  {
    if step.Begin? {
      StartKeepsInv(c, w, w.phase.pid, Intent(w.phase.pid, step.e), Some(Armed));
    } else if w.phase.record.inFlight == Some([]) {
      OwnersWork(c, w);
      StartKeepsInv(c, w, w.phase.pid, Finished(w.phase.pid), None);
    }
  }

  lemma OthersKeepPhase(c: Codec, w: World, w': World, step: Step)
    requires c.Valid() && Inv(c, w) && NextStep(c, w, w', step)
    requires !Writes(step) && !step.Begin? && !step.Leave?
    ensures PhaseInv(c, w')
  {
  }

  lemma OthersKeepRecorded(c: Codec, w: World, w': World, step: Step)
    requires c.Valid() && Inv(c, w) && NextStep(c, w, w', step) && !Writes(step)
    ensures Recorded(c, w')
  {
  }

  lemma StepKeepsInv(c: Codec, w: World, w': World, step: Step)
    requires c.Valid() && Inv(c, w) && CarefulStep(c, w, w', step)
    ensures Inv(c, w')
  {
    if step.Admit? {
      AdmissionFindsNoWork(c, w, w', step);
    }
    IdleStepKeepsInv(c, w, w', step);
  }

  lemma IdleStepKeepsInv(c: Codec, w: World, w': World, step: Step)
    requires c.Valid() && Inv(c, w) && NextStep(c, w, w', step)
    requires step.Admit? ==> w'.pending == {}
    ensures Inv(c, w')
  {
    if Writes(step) {
      WritingKeepsInv(c, w, w', step);
    } else {
      if step.Begin? || step.Leave? {
        BeginKeepsPhase(c, w, w', step);
      } else {
        OthersKeepPhase(c, w, w', step);
      }
      OthersKeepRecorded(c, w, w', step);
    }
  }

  /** A run of the machine; a careful one asks for acknowledged creations at every admission. */
  ghost predicate Chain(c: Codec, ws: seq<World>, steps: seq<Step>, careful: bool) {
    |ws| == |steps| + 1 && forall i | 0 <= i < |steps| :: StepAt(c, ws, steps, careful, i)
  }

  ghost predicate StepAt(c: Codec, ws: seq<World>, steps: seq<Step>, careful: bool, i: nat)
    requires i < |steps| < |ws|
  {
    NextStep(c, ws[i], ws[i + 1], steps[i]) && (careful && steps[i].Admit? ==> Careful(c, ws[i]))
  }

  lemma ChainOn(c: Codec, ws: seq<World>, steps: seq<Step>, careful: bool, w: World, step: Step)
    requires Chain(c, ws, steps, careful) && NextStep(c, ws[|steps|], w, step)
    requires careful && step.Admit? ==> Careful(c, ws[|steps|])
    ensures Chain(c, ws + [w], steps + [step], careful)
  {
    forall i | 0 <= i < |steps| + 1 ensures StepAt(c, ws + [w], steps + [step], careful, i) {
      assert i < |steps| ==> StepAt(c, ws, steps, careful, i);
    }
  }

  ghost predicate IsRun(c: Codec, ws: seq<World>, steps: seq<Step>, careful: bool) {
    Chain(c, ws, steps, careful) && Init(ws[0])
  }

  lemma {:induction false} RunKeepsInv(c: Codec, ws: seq<World>, steps: seq<Step>, i: nat)
    requires c.Valid() && IsRun(c, ws, steps, true) && i < |ws|
    ensures Inv(c, ws[i])
  {
    if i > 0 {
      RunKeepsInv(c, ws, steps, i - 1);
      assert StepAt(c, ws, steps, true, i - 1);
      StepKeepsInv(c, ws[i - 1], ws[i], steps[i - 1]);
    }
  }

  /**
   Safety over every careful run: at most one launch is outstanding; a campaign is admitted only
   onto a machine with no work left; and whatever is outstanding while a campaign owns the
   machine is that campaign's own current launch.
  */
  lemma CampaignsNeverOverlap(c: Codec, ws: seq<World>, steps: seq<Step>, i: nat)
    requires c.Valid() && IsRun(c, ws, steps, true) && i < |ws|
    ensures |Works(ws[i])| <= 1
    ensures i < |steps| && steps[i].Admit? ==> Works(ws[i + 1]) == {}
    ensures ws[i].phase.Persisting? ==> Works(ws[i]) == {}
    ensures ws[i].phase.Owning? ==> forall j | j in Works(ws[i]) :: CurrentWork(ws[i], j)
  {
    RunKeepsInv(c, ws, steps, i);
    AtMostOne(c, ws[i]);
    if i < |steps| && steps[i].Admit? {
      assert StepAt(c, ws, steps, true, i);
      AdmissionFindsNoWork(c, ws[i], ws[i + 1], steps[i]);
    }
    if ws[i].phase.Owning? {
      OwnersWork(c, ws[i]);
    }
  }

  ghost predicate Reaches(c: Codec, w: World, w': World, careful: bool) {
    exists ws, steps :: Chain(c, ws, steps, careful) && ws[0] == w && ws[|ws| - 1] == w'
  }

  ghost predicate Reachable(c: Codec, w: World, careful: bool) {
    exists w0 :: Init(w0) && Reaches(c, w0, w, careful)
  }

  lemma ReachSelf(c: Codec, w: World, careful: bool)
    ensures Reaches(c, w, w, careful)
  {
    assert Chain(c, [w], [], careful) && [w][0] == w && [w][|[w]| - 1] == w;
  }

  lemma ReachStep(c: Codec, w: World, w1: World, w2: World, step: Step, careful: bool)
    requires Reaches(c, w, w1, careful) && NextStep(c, w1, w2, step)
    requires careful && step.Admit? ==> Careful(c, w1)
    ensures Reaches(c, w, w2, careful)
  {
    var ws, steps :| Chain(c, ws, steps, careful) && ws[0] == w && ws[|ws| - 1] == w1;
    var ws', steps' := ws + [w2], steps + [step];
    ChainOn(c, ws, steps, careful, w2, step);
    assert Chain(c, ws', steps', careful) && ws'[0] == w && ws'[|ws'| - 1] == w2;
  }

  lemma {:induction false} ReachTransitive(c: Codec, w: World, w1: World, w2: World, careful: bool)
    requires Reaches(c, w, w1, careful) && Reaches(c, w1, w2, careful)
    ensures Reaches(c, w, w2, careful)
  {
    var ws, steps :| Chain(c, ws, steps, careful) && ws[0] == w1 && ws[|ws| - 1] == w2;
    ReachAlong(c, w, ws, steps, |steps|, careful);
  }

  lemma {:induction false} ReachAlong(c: Codec, w: World, ws: seq<World>, steps: seq<Step>, i: nat, careful: bool)
    requires Chain(c, ws, steps, careful) && Reaches(c, w, ws[0], careful) && i < |ws|
    ensures Reaches(c, w, ws[i], careful)
  {
    if i > 0 {
      ReachAlong(c, w, ws, steps, i - 1, careful);
      assert StepAt(c, ws, steps, careful, i - 1);
      ReachStep(c, w, ws[i - 1], ws[i], steps[i - 1], careful);
    }
  }

  lemma ReachableOn(c: Codec, w: World, w': World, careful: bool)
    requires Reachable(c, w, careful) && Reaches(c, w, w', careful)
    ensures Reachable(c, w', careful)
  {
    var w0 :| Init(w0) && Reaches(c, w0, w, careful);
    ReachTransitive(c, w0, w, w', careful);
  }

  lemma ReachableKeepsInv(c: Codec, w: World)
    requires c.Valid() && Reachable(c, w, true)
    ensures Inv(c, w)
  {
    var w0 :| Init(w0) && Reaches(c, w0, w, true);
    var ws, steps :| Chain(c, ws, steps, true) && ws[0] == w0 && ws[|ws| - 1] == w;
    RunKeepsInv(c, ws, steps, |steps|);
  }

  /** The world once the record being written is in the file. */
  function AllWritten(c: Codec, w: World): World
    requires w.phase.Persisting?
  {
    w.(file := c.encode(w.phase.record), phase := Written(w.phase))
  }

  /** A write that is not interrupted reaches its end and leaves exactly the record. */
  lemma {:induction false} PersistFinishes(c: Codec, w0: World, w: World, careful: bool)
    requires c.Valid() && Reaches(c, w0, w, careful) && w.phase.Persisting?
    requires w.phase.k <= |Padded(c.encode(w.phase.record), |w.phase.prior|)|
    requires w.file == Overwritten(w.phase.prior, c.encode(w.phase.record), w.phase.k)
    ensures Reaches(c, w0, AllWritten(c, w), careful)
    decreases |Padded(c.encode(w.phase.record), |w.phase.prior|)| - w.phase.k
  {
    var data := c.encode(w.phase.record);
    PersistCrashPoints(w.phase.prior, data, w.phase.k);
    if w.phase.k == |Padded(data, |w.phase.prior|)| {
      assert |data| <= |w.file|;
      ReachStep(c, w0, w, AllWritten(c, w), Shorten, careful);
    } else {
      var w1 := w.(phase := w.phase.(k := w.phase.k + 1),
                   file := Overwritten(w.phase.prior, data, w.phase.k + 1));
      ReachStep(c, w0, w, w1, WriteOne, careful);
      PersistFinishes(c, w0, w1, careful);
    }
  }

  lemma NothingWritten(prior: string, data: string)
    ensures Overwritten(prior, data, 0) == prior
  {
  }

  /** A step that starts to write a record, and the whole write. */
  lemma StepAndWrite(c: Codec, w0: World, w: World, w1: World, step: Step, careful: bool)
    requires c.Valid() && Reaches(c, w0, w, careful) && NextStep(c, w, w1, step)
    requires careful && step.Admit? ==> Careful(c, w)
    requires w1.phase.Persisting? && w1.phase.k == 0 && w1.phase.prior == w1.file
    ensures Reaches(c, w0, AllWritten(c, w1), careful)
  {
    ReachStep(c, w0, w, w1, step, careful);
    NothingWritten(w1.file, c.encode(w1.phase.record));
    PersistFinishes(c, w0, w1, careful);
  }

  // The code of one campaign, and the run of the machine that it is.

  /** The work that an admission leaves alive. */
  ghost function Surviving(alive: set<Work>, removed: set<seq<string>>): set<Work> {
    set j | j in alive && (j.entry.container.None? || j.entry.container.value !in removed)
  }

  /** The machine after a process that holds the lock has looked at the file. */
  ghost function Checked(c: Codec, w: World, pid: int, removed: set<seq<string>>): World {
    if Admits(c, w.file, w.live, removed)
    then AllWritten(c, Persist(w.(alive := Surviving(w.alive, removed)), pid, Active(pid), Some(Ready)))
    else w.(phase := Idle)
  }

  /** The owner of the lock file, if the record in it lets a new campaign start. */
  method OwnMachine(codec: Codec, lock: LockFile, pid: int, live: set<int>, removed: set<seq<string>>, ghost w: World)
    returns (owner: CampaignOwner?)
    requires codec.Valid()
    requires w.phase == Checking(pid) && w.file == lock.content && w.live == live
    modifies lock
    ensures owner != null <==> Admits(codec, old(lock.content), live, removed)
    ensures owner == null ==> lock.content == old(lock.content)
    ensures owner != null ==> fresh(owner) && owner.Valid() && owner.Synced() && owner.codec == codec
                              && owner.lock == lock && owner.record == Active(pid)
    ensures Reaches(codec, w, Checked(codec, w, pid, removed), Careful(codec, w))
    ensures Checked(codec, w, pid, removed).file == lock.content
  {
    CheckedIsReached(codec, w, pid, removed);
    var previous := Strip(lock.content);
    if previous != "" {
      var record := codec.decode(previous);
      if !CleanRecord(record) {
        var gone := ReconcileAbandoned(record, live, removed);
        if !gone {
          return null;
        }
      }
    }
    owner := new CampaignOwner(codec, lock, pid);
  }

  lemma CheckedIsReached(c: Codec, w: World, pid: int, removed: set<seq<string>>)
    requires c.Valid() && w.phase == Checking(pid)
    ensures Reaches(c, w, Checked(c, w, pid, removed), Careful(c, w))
  {
    ReachSelf(c, w, Careful(c, w));
    if Admits(c, w.file, w.live, removed) {
      var survivors := Surviving(w.alive, removed);
      var w1 := Persist(w.(alive := survivors), pid, Active(pid), Some(Ready));
      assert NextStep(c, w, w1, Admit(removed, survivors));
      StepAndWrite(c, w, w, w1, Admit(removed, survivors), Careful(c, w));
    } else {
      ReachStep(c, w, w, w.(phase := Idle), Refuse, Careful(c, w));
    }
  }

  /** The machine after a campaign has given up the lock. */
  ghost function Left(c: Codec, w: World): World
    requires w.phase.Owning?
  {
    if w.phase.record.inFlight == Some([]) then AllWritten(c, Persist(w, w.phase.pid, Finished(w.phase.pid), None))
    else w.(phase := Idle)
  }

  /** The end of a campaign, however it comes about: a record with a launch in it stays in the file. */
  method LeaveMachine(owner: CampaignOwner, ghost w: World)
    requires owner.Valid() && owner.Synced()
    requires w.phase.Owning? && w.phase.record == owner.record && w.file == owner.lock.content
    requires owner.record.inFlight == Some([]) ==> owner.record == Active(w.phase.pid)
    modifies owner, owner.lock
    ensures Reaches(owner.codec, w, Left(owner.codec, w), true)
    ensures Left(owner.codec, w).file == owner.lock.content && Left(owner.codec, w).phase.Idle?
    ensures old(owner.record).inFlight != Some([]) ==> owner.lock.content == old(owner.lock.content)
  {
    ghost var c := owner.codec;
    ReachSelf(c, w, true);
    if owner.record.inFlight == Some([]) {
      StepAndWrite(c, w, w, Persist(w, w.phase.pid, Finished(w.phase.pid), None), Leave, true);
    } else {
      ReachStep(c, w, w, Left(c, w), Leave, true);
    }
    owner.Finish();
  }

  // What a dead owner's record tells.

  /** A dead owner's container launch as the next campaign finds it, but for what is still pending. */
  function Found(c: Codec, p: int, e: Entry, live: set<int>, q: int, cids: set<string>): World {
    World(c.encode(Intent(p, e)), live, {}, {}, cids, Checking(q))
  }

  predicate Dead(p: int, e: Entry, live: set<int>, q: int) {
    && 0 < p && p !in live && q in live && (forall x | x in live :: 0 < x)
    && e.kind == "container" && WellFormed(e)
  }

  /** The first owner is about to launch the container. */
  lemma FirstOwner(c: Codec, p: int, e: Entry, live: set<int>, q: int, cids: set<string>)
    requires c.Valid() && Dead(p, e, live, q)
    ensures Reachable(c, World(c.encode(Intent(p, e)), live + {p}, {}, {}, cids, Owning(p, Intent(p, e), Armed)), true)
  {
    var w0 := World("", live + {p}, {}, {}, cids, Idle);
    ReachSelf(c, w0, true);
    var w1 := w0.(phase := Checking(p));
    ReachStep(c, w0, w0, w1, Acquire(p), true);
    StripEmpty();
    var w2 := Persist(w1, p, Active(p), Some(Ready));
    assert NextStep(c, w1, w2, Admit({}, {}));
    StepAndWrite(c, w0, w1, w2, Admit({}, {}), true);
    var w3 := AllWritten(c, w2);
    StepAndWrite(c, w0, w3, Persist(w3, p, Intent(p, e), Some(Armed)), Begin(e), true);
  }

  lemma StripEmpty()
    ensures Strip("") == ""
  {
  }

  /** The owner dies while its container creation is pending, and another process takes the lock. */
  lemma DiesWhileCreating(c: Codec, p: int, e: Entry, live: set<int>, q: int, cids: set<string>)
    requires c.Valid() && Dead(p, e, live, q) && e.workspace !in cids
    ensures Reachable(c, Found(c, p, e, live, q, cids).(pending := {Work(p, e)}), true)
  {
    FirstOwner(c, p, e, live, q, cids);
    var w := World(c.encode(Intent(p, e)), live + {p}, {}, {}, cids, Owning(p, Intent(p, e), Armed));
    ReachSelf(c, w, true);
    var j := Work(p, e);
    var w1 := w.(pending := {j}, phase := w.phase.(stage := Running));
    assert Launchable(w, j) && w1 == w.(pending := w.pending + {j}, phase := w.phase.(stage := Running));
    ReachStep(c, w, w, w1, LaunchPending, true);
    DiesAndIsFound(c, w, w1, live, q, true);
    ReachableOn(c, w, w1.(live := live, phase := Checking(q)), true);
  }

  lemma DiesAndIsFound(c: Codec, w: World, w1: World, live: set<int>, q: int, careful: bool)
    requires Reaches(c, w, w1, careful) && w1.phase.Owning? && w1.phase.pid !in live && q in live
    requires w1.live == live + {w1.phase.pid} && w1.alive == {}
    ensures Reaches(c, w, w1.(live := live, phase := Checking(q)), careful)
  {
    var p := w1.phase.pid;
    var w2 := w1.(live := live, phase := Idle);
    assert w1.live - {p} == live && AfterDeath(w1.alive, p) == {};
    ReachStep(c, w, w1, w2, Crash(p), careful);
    ReachStep(c, w, w2, w2.(phase := Checking(q)), Acquire(q), careful);
  }

  /** The same with the launch over: created, acknowledged if it says so, and ended. */
  lemma DiesAfterLaunch(c: Codec, p: int, e: Entry, live: set<int>, q: int, cids: set<string>)
    requires c.Valid() && Dead(p, e, live, q)
    ensures Reachable(c, Found(c, p, e, live, q, cids), true)
  {
    var before := cids - {e.workspace};
    FirstOwner(c, p, e, live, q, before);
    var w := World(c.encode(Intent(p, e)), live + {p}, {}, {}, before, Owning(p, Intent(p, e), Armed));
    ReachSelf(c, w, true);
    var j := Work(p, e);
    var w1 := w.(alive := {j}, phase := w.phase.(stage := Running));
    assert Launchable(w, j) && w1 == w.(alive := w.alive + {j}, phase := w.phase.(stage := Running));
    ReachStep(c, w, w, w1, Launch, true);
    var w2 := w1.(cids := cids);
    if e.workspace in cids {
      assert w2 == w1.(cids := w1.cids + {e.workspace});
      ReachStep(c, w, w1, w2, Acknowledge(e.workspace), true);
    } else {
      assert w2 == w1;
    }
    var w3 := w2.(alive := {});
    assert w3 == w2.(alive := w2.alive - {j});
    ReachStep(c, w, w2, w3, WorkEnds(j), true);
    DiesAndIsFound(c, w, w3, live, q, true);
    ReachableOn(c, w, Found(c, p, e, live, q, cids), true);
  }

  /**
   In runs whose earlier admissions all asked for the create ID files, whether a container that is
   not there can still appear is decided by the file that a normal cleanup asks for: with it nothing
   is pending in any such state that looks like this one, and without it something may be. Module
   AdmissionEvidence decides it for all runs, in which an earlier admission may have been blind.
  */
  lemma AcknowledgmentDecides(c: Codec, p: int, e: Entry, live: set<int>, q: int, cids: set<string>)
    requires c.Valid() && Dead(p, e, live, q)
    ensures var found := Found(c, p, e, live, q, cids);
      && Reachable(c, found, true)
      && ((forall pending | Reachable(c, found.(pending := pending), true) :: pending == {})
          <==> e.workspace in cids)
  {
    var found := Found(c, p, e, live, q, cids);
    DiesAfterLaunch(c, p, e, live, q, cids);
    if e.workspace in cids {
      forall pending | Reachable(c, found.(pending := pending), true) ensures pending == {} {
        NothingPending(c, found.(pending := pending), p, e);
      }
    } else {
      DiesWhileCreating(c, p, e, live, q, cids);
    }
  }

  lemma NothingPending(c: Codec, w: World, p: int, e: Entry)
    requires c.Valid() && Reachable(c, w, true)
    requires w.file == c.encode(Intent(p, e)) && e.workspace in w.cids
    ensures w.pending == {}
  {
    ReachableKeepsInv(c, w);
    forall j | j in w.pending ensures j.entry == e {
      assert c.decode(w.file) == Some(Intent(p, e)) && j in Works(w);
    }
  }

  /**
   Without the acknowledgment, a second campaign can own the machine while the first one's
   container comes alive, whatever else there is to be seen.
  */
  lemma UnacknowledgedAdmissionOverlaps(c: Codec, p: int, e: Entry, live: set<int>, q: int, cids: set<string>)
    requires c.Valid() && Dead(p, e, live, q) && e.workspace !in cids
    ensures var w := Found(c, p, e, live, q, cids).(pending := {Work(p, e)});
      && Reachable(c, w, true)
      && Reaches(c, w, World(c.encode(Active(q)), live, {Work(p, e)}, {}, cids, Owning(q, Active(q), Ready)), false)
  {
    DiesWhileCreating(c, p, e, live, q, cids);
    var j := Work(p, e);
    var w := Found(c, p, e, live, q, cids).(pending := {j});
    var removed := {e.container.value};
    RecordDecides(c, p, e, live, removed);
    ReachSelf(c, w, false);
    var w1 := Persist(w, q, Active(q), Some(Ready));
    assert NextStep(c, w, w1, Admit(removed, {}));
    StepAndWrite(c, w, w, w1, Admit(removed, {}), false);
    var w2 := AllWritten(c, w1);
    var w3 := w2.(pending := {}, alive := {j});
    assert w3 == w2.(pending := w2.pending - {j}, alive := w2.alive + {j});
    ReachStep(c, w, w2, w3, CreateLands(j), false);
  }

  lemma StripEncoded(c: Codec, r: Record)
    requires c.Valid()
    ensures Strip(c.encode(r)) == c.encode(r) != ""
  {
    StripPadding(c.encode(r), 0);
    assert c.encode(r) + Spaces(0) == c.encode(r);
  }

  /**
   What a later campaign does with a complete record: a finished one never blocks it, and an
   unresolved intent blocks it until the owner is dead and the work is of a kind proven gone. A
   native run on Linux is never one of those.
  */
  lemma RecordDecides(c: Codec, pid: int, e: Entry, live: set<int>, removed: set<seq<string>>)
    requires c.Valid() && 0 < pid && WellFormed(e)
    ensures Admits(c, c.encode(Finished(pid)), live, removed)
    ensures Admits(c, c.encode(Active(pid)), live, removed) <==> pid !in live
    ensures Admits(c, c.encode(Intent(pid, e)), live, removed) <==>
      pid !in live && e.kind != "native"
      && (e.kind == "container" ==> e.container.value in removed)
  {
    StripEncoded(c, Finished(pid));
    StripEncoded(c, Active(pid));
    StripEncoded(c, Intent(pid, e));
    assert Intent(pid, e).inFlight.value == [Some(e)];
    assert Some(e) in Intent(pid, e).inFlight.value;
  }

  /** The entry of a container of ours that is removed, or of a Windows job. */
  predicate Settled(item: Option<Entry>, removed: set<seq<string>>) {
    && item.Some?
    && (|| item.value.kind == "windows-job"
        || (&& item.value.kind == "container" && item.value.container.Some? && |item.value.container.value| == 2
            && item.value.container.value[0] != "" && "davinci-bench-" <= item.value.container.value[1]
            && item.value.container.value in removed))
  }

  /**
   What any text in the lock file does, in the members of the record that it is decoded to: a blank
   one lets a campaign start, and so does a record of version 1 that is finished, or whose owner has
   a number of a process that does not live and whose every entry is settled. No other text does.
  */
  lemma AdmitsExactly(c: Codec, text: string, live: set<int>, removed: set<seq<string>>)
    ensures Admits(c, text, live, removed) <==>
      || OnlySpace(text)
      || (&& c.decode(Strip(text)).Some?
          && var r := c.decode(Strip(text)).value;
          && r.schema == 1 && r.inFlight.Some?
          && (|| (r.status == "clean" && r.inFlight.value == [])
              || (&& r.pid.Some? && r.pid.value > 0 && r.pid.value !in live
                  && forall i | 0 <= i < |r.inFlight.value| :: Settled(r.inFlight.value[i], removed))))
  {
    StripsToNothing(text);
    var record := c.decode(Strip(text));
    if record.Some? && record.value.inFlight.Some? {
      var items := record.value.inFlight.value;
      forall i | 0 <= i < |items| ensures Settled(items[i], removed) <==> ProvenGone(items[i], removed) {
      }
      assert (forall item | item in items :: ProvenGone(item, removed)) <==>
             forall i | 0 <= i < |items| :: Settled(items[i], removed)
      by {
        if forall item | item in items :: ProvenGone(item, removed) {
          forall i | 0 <= i < |items| ensures Settled(items[i], removed) {
            assert items[i] in items;
          }
        }
      }
    }
  }
}
