/** What can be seen of campaigns on one machine, and what it proves (scripts/bench/runner.py). */
module AdmissionEvidence {
  // The lock file, the live processes, the create ID files and the campaigns' steps can be seen; the
  // daemon and the work itself cannot. The same evidence belongs to many runs of the machine. Here
  // it is decided for which evidence campaigns exclude one another in every such run.

  import opened CampaignOwnership
  import opened LaunchRecord
  import opened Text
  import opened Wrappers

  datatype View = View(file: string, live: set<int>, cids: set<string>, phase: Phase)

  function ViewOf(w: World): View { View(w.file, w.live, w.cids, w.phase) }

  /** What is seen of a step: nothing of the work and the daemon, and of a launch only that it was tried. */
  function Shown(step: Step): Option<Step> {
    match step
    case WorkEnds(_) => None
    case CreateLands(_) => None
    case CreateFails(_) => None
    case LaunchPending => Some(Launch)
    case LaunchFails => Some(Launch)
    case Admit(removed, _) => Some(Admit(removed, {}))
    case _ => Some(step)
  }

  datatype Seen = Seen(step: Step, view: View)

  function Noted(seen: seq<Seen>, step: Step, w: World): seq<Seen> {
    if Shown(step).None? then seen else seen + [Seen(Shown(step).value, ViewOf(w))]
  }

  /** The evidence that the first `n` steps of a run have left. */
  function Evidence(ws: seq<World>, steps: seq<Step>, n: nat): seq<Seen>
    requires n <= |steps| < |ws|
  {
    if n == 0 then [] else Noted(Evidence(ws, steps, n - 1), steps[n - 1], ws[n])
  }

  ghost predicate SameEvidence(ws: seq<World>, steps: seq<Step>, ws': seq<World>, steps': seq<Step>)
    requires |steps| < |ws| && |steps'| < |ws'|
  {
    ViewOf(ws[0]) == ViewOf(ws'[0]) && Evidence(ws, steps, |steps|) == Evidence(ws', steps', |steps'|)
  }

  // Reading the evidence.

  function InFlight(p: Phase): Option<Work> {
    if p.Owning? && p.record.inFlight.Some? && |p.record.inFlight.value| == 1 && p.record.inFlight.value[0].Some?
    then Some(Work(p.pid, p.record.inFlight.value[0].value))
    else None
  }

  /** The last launch that was tried, unless its cleanup has completed or a campaign was admitted since. */
  function Outstanding(seen: seq<Seen>): Option<Work> {
    if seen == [] then None
    else
      var last := seen[|seen| - 1];
      if last.step.Launch? then InFlight(last.view.phase)
      else if last.step.Complete? || last.step.Admit? then None
      else Outstanding(seen[..|seen| - 1])
  }

  /** The last thing seen is an admission over a container launch without its create ID file. */
  predicate BlindLast(seen: seq<Seen>) {
    && seen != [] && seen[|seen| - 1].step.Admit?
    && var o := Outstanding(seen[..|seen| - 1]);
       o.Some? && o.value.entry.kind == "container" && o.value.entry.workspace !in seen[|seen| - 1].view.cids
  }

  predicate NeverBlind(seen: seq<Seen>) {
    seen == [] || (NeverBlind(seen[..|seen| - 1]) && !BlindLast(seen))
  }

  lemma NotedOn(seen: seq<Seen>, step: Step, w: World)
    ensures Shown(step).Some? ==> Noted(seen, step, w)[..|seen|] == seen && |Noted(seen, step, w)| == |seen| + 1
    ensures NeverBlind(Noted(seen, step, w)) ==> NeverBlind(seen)
    ensures NeverBlind(Noted(seen, step, w)) <==> NeverBlind(seen) && (Shown(step).Some? ==> !BlindLast(Noted(seen, step, w)))
  {
  }

  // What every run without a blind admission keeps.

  /** Whatever is outstanding has been seen to be launched, and its intent is still in the file. */
  ghost predicate Tracks(c: Codec, w: World, seen: seq<Seen>) {
    && (forall j | j in Works(w) :: Outstanding(seen) == Some(j))
    && (Outstanding(seen).Some? ==>
          && var j := Outstanding(seen).value;
          && w.file == c.encode(Intent(j.owner, j.entry)) && !w.phase.Persisting?
          && (w.phase.Owning? ==>
                w.phase.stage == Running && w.phase.record == Intent(j.owner, j.entry) && w.phase.pid == j.owner))
  }

  /** An admission that leaves anything outstanding is blind. */
  lemma LeftOverIsBlind(c: Codec, w: World, w': World, step: Step, seen: seq<Seen>)
    requires c.Valid() && Inv(c, w) && Tracks(c, w, seen) && NextStep(c, w, w', step) && step.Admit?
    ensures w'.alive == {} && (w'.pending != {} ==> BlindLast(Noted(seen, step, w')))
  {
    AdmissionFindsNoWork(c, w, w', step);
    NotedOn(seen, step, w');
    if w'.pending != {} {
      var j :| j in w'.pending;
      assert j in Works(w);
    }
  }

  lemma LaunchTracks(c: Codec, w: World, w': World, step: Step, seen: seq<Seen>)
    requires c.Valid() && Inv(c, w) && NextStep(c, w, w', step)
    requires step.Launch? || step.LaunchPending? || step.LaunchFails?
    ensures Tracks(c, w', Noted(seen, step, w'))
  {
    assert Works(w) == {};
    NotedOn(seen, step, w');
    var o := Outstanding(Noted(seen, step, w'));
    assert o == InFlight(w'.phase);
    forall j | CurrentWork(w, j) ensures o == Some(j) {
    }
  }

  lemma StepTracks(c: Codec, w: World, w': World, step: Step, seen: seq<Seen>)
    requires c.Valid() && Inv(c, w) && Tracks(c, w, seen) && NextStep(c, w, w', step)
    requires step.Admit? || step.Complete? ==> Works(w') == {}
    ensures Tracks(c, w', Noted(seen, step, w'))
  {
    if step.Launch? || step.LaunchPending? || step.LaunchFails? {
      LaunchTracks(c, w, w', step, seen);
    } else {
      NotedOn(seen, step, w');
    }
  }

  lemma {:induction false} RunTracks(c: Codec, ws: seq<World>, steps: seq<Step>, n: nat)
    requires c.Valid() && IsRun(c, ws, steps, false) && n <= |steps| && NeverBlind(Evidence(ws, steps, n))
    ensures Inv(c, ws[n]) && Tracks(c, ws[n], Evidence(ws, steps, n))
  {
    if n > 0 {
      var w, w', step, seen := ws[n - 1], ws[n], steps[n - 1], Evidence(ws, steps, n - 1);
      assert StepAt(c, ws, steps, false, n - 1);
      NotedOn(seen, step, w');
      RunTracks(c, ws, steps, n - 1);
      if step.Admit? {
        LeftOverIsBlind(c, w, w', step, seen);
      }
      IdleStepKeepsInv(c, w, w', step);
      if step.Complete? {
        WritingKeepsInv(c, w, w', step);
      }
      StepTracks(c, w, w', step, seen);
    }
  }

  // Nothing more than that keeps campaigns apart.

  /** Only the container creation `j` is outstanding, and it is pending. */
  function PendingOnly(w: World, j: Work): World { w.(alive := {}, pending := {j}) }

  /** A run of the machine that looks like the first `n` steps of another. */
  ghost predicate LooksLike(c: Codec, ws': seq<World>, steps': seq<Step>, ws: seq<World>, steps: seq<Step>, n: nat)
    requires n <= |steps| < |ws|
  {
    && IsRun(c, ws', steps', false) && ViewOf(ws'[0]) == ViewOf(ws[0])
    && Evidence(ws', steps', |steps'|) == Evidence(ws, steps, n)
  }

  lemma {:induction false} EvidenceOfPrefix(ws: seq<World>, steps: seq<Step>, ws': seq<World>, steps': seq<Step>, n: nat)
    requires n <= |steps| < |ws| && n <= |steps'| < |ws'|
    requires (forall i | 0 <= i < n :: steps[i] == steps'[i]) && (forall i | 0 <= i <= n :: ws[i] == ws'[i])
    ensures Evidence(ws, steps, n) == Evidence(ws', steps', n)
  {
    if n > 0 {
      EvidenceOfPrefix(ws, steps, ws', steps', n - 1);
    }
  }

  lemma RunPrefix(c: Codec, ws: seq<World>, steps: seq<Step>, n: nat)
    requires IsRun(c, ws, steps, false) && n <= |steps|
    ensures LooksLike(c, ws[..n + 1], steps[..n], ws, steps, n)
  {
    var ws', steps' := ws[..n + 1], steps[..n];
    EvidenceOfPrefix(ws, steps, ws', steps', n);
    forall i | 0 <= i < n ensures StepAt(c, ws', steps', false, i) {
      assert StepAt(c, ws, steps, false, i);
    }
  }

  lemma EvidenceOn(ws: seq<World>, steps: seq<Step>, w: World, step: Step)
    requires |ws| == |steps| + 1
    ensures Evidence(ws + [w], steps + [step], |steps| + 1) == Noted(Evidence(ws, steps, |steps|), step, w)
  {
    EvidenceOfPrefix(ws, steps, ws + [w], steps + [step], |steps|);
  }

  /** One more step of both runs that looks the same. */
  lemma LooksLikeOn(c: Codec, ws': seq<World>, steps': seq<Step>, w': World, step': Step,
                    ws: seq<World>, steps: seq<Step>, n: nat)
    requires n < |steps| < |ws| && LooksLike(c, ws', steps', ws, steps, n)
    requires NextStep(c, ws'[|steps'|], w', step')
    requires Shown(step') == Shown(steps[n]) && (Shown(step').Some? ==> ViewOf(w') == ViewOf(ws[n + 1]))
    ensures LooksLike(c, ws' + [w'], steps' + [step'], ws, steps, n + 1)
  {
    ChainOn(c, ws', steps', false, w', step');
    EvidenceOn(ws', steps', w', step');
  }

  /** A step that is not seen, of the one run only. */
  lemma LooksLikeStill(c: Codec, ws': seq<World>, steps': seq<Step>, w': World, step': Step,
                       ws: seq<World>, steps: seq<Step>, n: nat)
    requires n <= |steps| < |ws| && LooksLike(c, ws', steps', ws, steps, n)
    requires NextStep(c, ws'[|steps'|], w', step') && Shown(step').None?
    ensures LooksLike(c, ws' + [w'], steps' + [step'], ws, steps, n)
  {
    ChainOn(c, ws', steps', false, w', step');
    EvidenceOn(ws', steps', w', step');
  }

  /** Steps between a launch and an admission are possible with the creation pending as well. */
  lemma StepWhilePending(c: Codec, w: World, w': World, step: Step, j: Work)
    requires NextStep(c, w, w', step) && j.entry.workspace !in w'.cids
    requires Shown(step).Some? && !Shown(step).value.Launch? && !step.Complete? && !step.Admit?
    ensures NextStep(c, PendingOnly(w, j), PendingOnly(w', j), step)
  {
    assert AfterDeath({}, if step.Crash? then step.p else 0) == {};
  }

  lemma CidsGrow(c: Codec, w: World, w': World, step: Step)
    requires NextStep(c, w, w', step)
    ensures w.cids <= w'.cids
    ensures Shown(step).None? ==> ViewOf(w') == ViewOf(w)
  {
  }

  /** What the last step says about a launch that is outstanding after it. */
  lemma OutstandingBefore(seen: seq<Seen>, step: Step, w: World, j: Work)
    requires Outstanding(Noted(seen, step, w)) == Some(j)
    ensures if Shown(step) == Some(Launch) then InFlight(w.phase) == Some(j)
            else Outstanding(seen) == Some(j) && (Shown(step).Some? ==> !step.Complete? && !step.Admit?)
  {
    NotedOn(seen, step, w);
  }

  lemma LastStep(c: Codec, ws: seq<World>, steps: seq<Step>, n: nat, j: Work)
    requires IsRun(c, ws, steps, false) && n <= |steps| && NeverBlind(Evidence(ws, steps, n))
    requires Outstanding(Evidence(ws, steps, n)) == Some(j)
    ensures n > 0 && NeverBlind(Evidence(ws, steps, n - 1)) && ws[n - 1].cids <= ws[n].cids
    ensures if Shown(steps[n - 1]) == Some(Launch) then InFlight(ws[n].phase) == Some(j)
            else Outstanding(Evidence(ws, steps, n - 1)) == Some(j) && !steps[n - 1].Complete? && !steps[n - 1].Admit?
  {
    OutstandingBefore(Evidence(ws, steps, n - 1), steps[n - 1], ws[n], j);
    NotedOn(Evidence(ws, steps, n - 1), steps[n - 1], ws[n]);
    assert StepAt(c, ws, steps, false, n - 1);
    CidsGrow(c, ws[n - 1], ws[n], steps[n - 1]);
  }

  lemma PendingFromLaunch(c: Codec, ws: seq<World>, steps: seq<Step>, n: nat, j: Work)
    returns (ws': seq<World>, steps': seq<Step>)
    requires c.Valid() && IsRun(c, ws, steps, false) && n < |steps| && NeverBlind(Evidence(ws, steps, n))
    requires Shown(steps[n]) == Some(Launch) && InFlight(ws[n + 1].phase) == Some(j)
    requires j.entry.kind == "container" && j.entry.workspace !in ws[n + 1].cids
    ensures LooksLike(c, ws', steps', ws, steps, n + 1) && ws'[|steps'|] == PendingOnly(ws[n + 1], j)
  {
    assert StepAt(c, ws, steps, false, n);
    RunTracks(c, ws, steps, n);
    RunPrefix(c, ws, steps, n);
    LaunchMayPend(c, ws[n], ws[n + 1], steps[n], j);
    LooksLikeOn(c, ws[..n + 1], steps[..n], PendingOnly(ws[n + 1], j), LaunchPending, ws, steps, n);
    ws', steps' := ws[..n + 1] + [PendingOnly(ws[n + 1], j)], steps[..n] + [LaunchPending];
  }

  lemma StillPending(c: Codec, ws0: seq<World>, steps0: seq<Step>, ws: seq<World>, steps: seq<Step>, n: nat, j: Work)
    returns (ws': seq<World>, steps': seq<Step>)
    requires IsRun(c, ws, steps, false) && n < |steps| && j.entry.workspace !in ws[n + 1].cids
    requires LooksLike(c, ws0, steps0, ws, steps, n) && ws0[|steps0|] == PendingOnly(ws[n], j)
    requires Shown(steps[n]) != Some(Launch) && !steps[n].Complete? && !steps[n].Admit?
    ensures LooksLike(c, ws', steps', ws, steps, n + 1) && ws'[|steps'|] == PendingOnly(ws[n + 1], j)
  {
    assert StepAt(c, ws, steps, false, n);
    CidsGrow(c, ws[n], ws[n + 1], steps[n]);
    if Shown(steps[n]).None? {
      ws', steps' := ws0, steps0;
    } else {
      var x := PendingOnly(ws[n + 1], j);
      StepWhilePending(c, ws[n], ws[n + 1], steps[n], j);
      LooksLikeOn(c, ws0, steps0, x, steps[n], ws, steps, n);
      ws', steps' := ws0 + [x], steps0 + [steps[n]];
    }
  }

  /**
   If a container launch without its create ID file is all that was seen last, its creation may
   still be pending: there is a run that looks the same and in which it is.
  */
  lemma {:induction false} MayBePending(c: Codec, ws: seq<World>, steps: seq<Step>, n: nat, j: Work)
    returns (ws': seq<World>, steps': seq<Step>)
    requires c.Valid() && IsRun(c, ws, steps, false) && n <= |steps| && NeverBlind(Evidence(ws, steps, n))
    requires Outstanding(Evidence(ws, steps, n)) == Some(j)
    requires j.entry.kind == "container" && j.entry.workspace !in ws[n].cids
    ensures LooksLike(c, ws', steps', ws, steps, n) && ws'[|steps'|] == PendingOnly(ws[n], j)
    decreases n
  {
    LastStep(c, ws, steps, n, j);
    if Shown(steps[n - 1]) == Some(Launch) {
      ws', steps' := PendingFromLaunch(c, ws, steps, n - 1, j);
    } else {
      ws', steps' := MayBePending(c, ws, steps, n - 1, j);
      ws', steps' := StillPending(c, ws', steps', ws, steps, n - 1, j);
    }
  }

  lemma LaunchMayPend(c: Codec, w: World, w': World, step: Step, j: Work)
    requires Inv(c, w) && NextStep(c, w, w', step) && Shown(step) == Some(Launch)
    requires InFlight(w'.phase) == Some(j) && j.entry.kind == "container" && j.entry.workspace !in w'.cids
    ensures NextStep(c, w, PendingOnly(w', j), LaunchPending)
  {
    assert Launchable(w, j);
    assert Works(w) == {};
    assert PendingOnly(w', j) == w.(pending := w.pending + {j}, phase := w.phase.(stage := Running));
  }

  /** The admission goes the same way with the creation still pending. */
  lemma AdmitOverPending(c: Codec, w: World, w': World, step: Step, j: Work)
    requires NextStep(c, w, w', step) && step.Admit?
    ensures NextStep(c, PendingOnly(w, j), PendingOnly(w', j), Admit(step.removed, {}))
  {
  }

  /** The first blind admission of a run. */
  lemma {:induction false} FirstBlind(c: Codec, ws: seq<World>, steps: seq<Step>, n: nat) returns (i: nat)
    requires IsRun(c, ws, steps, false) && n <= |steps| && !NeverBlind(Evidence(ws, steps, n))
    ensures i < n && NeverBlind(Evidence(ws, steps, i)) && BlindLast(Evidence(ws, steps, i + 1))
    ensures steps[i].Admit? && BlindLast(Noted(Evidence(ws, steps, i), steps[i], ws[i + 1]))
  {
    NotedOn(Evidence(ws, steps, n - 1), steps[n - 1], ws[n]);
    if NeverBlind(Evidence(ws, steps, n - 1)) {
      i := n - 1;
    } else {
      i := FirstBlind(c, ws, steps, n - 1);
    }
  }

  /** A run that looks the same up to a first blind admission, and leaves a creation pending there. */
  lemma BlindAdmissionLeavesWork(c: Codec, ws: seq<World>, steps: seq<Step>, i: nat)
    returns (ws': seq<World>, steps': seq<Step>, j: Work)
    requires c.Valid() && IsRun(c, ws, steps, false) && i < |steps| && NeverBlind(Evidence(ws, steps, i))
    requires BlindLast(Evidence(ws, steps, i + 1)) && steps[i].Admit?
    ensures LooksLike(c, ws', steps', ws, steps, i + 1) && ws'[|steps'|] == PendingOnly(ws[i + 1], j)
    ensures ws[i + 1].alive == {} && ws[i + 1].phase.Persisting? && j.entry.kind == "container"
  {
    var seen := Evidence(ws, steps, i);
    assert StepAt(c, ws, steps, false, i);
    NotedOn(seen, steps[i], ws[i + 1]);
    j := Outstanding(seen).value;
    RunTracks(c, ws, steps, i);
    AdmissionFindsNoWork(c, ws[i], ws[i + 1], steps[i]);
    ws', steps' := MayBePending(c, ws, steps, i, j);
    var x := PendingOnly(ws[i + 1], j);
    AdmitOverPending(c, ws[i], ws[i + 1], steps[i], j);
    LooksLikeOn(c, ws', steps', x, Admit(steps[i].removed, {}), ws, steps, i);
    ws', steps' := ws' + [x], steps' + [Admit(steps[i].removed, {})];
  }

  /** From a state that both runs have come to, the one can go on as the other does. */
  lemma {:induction false} GoOn(c: Codec, ws0: seq<World>, steps0: seq<Step>, ws: seq<World>, steps: seq<Step>, n: nat)
    returns (ws': seq<World>, steps': seq<Step>)
    requires IsRun(c, ws, steps, false) && n <= |steps|
    requires LooksLike(c, ws0, steps0, ws, steps, n) && ws0[|steps0|] == ws[n]
    ensures LooksLike(c, ws', steps', ws, steps, |steps|) && ws0 <= ws'
    decreases |steps| - n
  {
    if n == |steps| {
      ws', steps' := ws0, steps0;
    } else {
      assert StepAt(c, ws, steps, false, n);
      LooksLikeOn(c, ws0, steps0, ws[n + 1], steps[n], ws, steps, n);
      ws', steps' := GoOn(c, ws0 + [ws[n + 1]], steps0 + [steps[n]], ws, steps, n + 1);
    }
  }

  /** At most one launch is outstanding, none while a record is written, and an owner's is its own. */
  ghost predicate Exclusive(w: World) {
    && |Works(w)| <= 1 && (w.phase.Persisting? ==> Works(w) == {})
    && (w.phase.Owning? ==> forall j | j in Works(w) :: CurrentWork(w, j))
  }

  ghost predicate ExclusiveRun(ws: seq<World>) { forall i | 0 <= i < |ws| :: Exclusive(ws[i]) }

  /** The pending creation fails after all, and the run goes on as the other does. */
  lemma OverlapAndGoOn(c: Codec, ws0: seq<World>, steps0: seq<Step>, ws: seq<World>, steps: seq<Step>, n: nat, j: Work)
    returns (ws': seq<World>, steps': seq<Step>)
    requires IsRun(c, ws, steps, false) && n <= |steps| && Works(ws[n]) == {} && ws[n].phase.Persisting?
    requires LooksLike(c, ws0, steps0, ws, steps, n) && ws0[|steps0|] == PendingOnly(ws[n], j)
    ensures LooksLike(c, ws', steps', ws, steps, |steps|) && !ExclusiveRun(ws')
  {
    CreationFails(c, ws[n], j);
    LooksLikeStill(c, ws0, steps0, ws[n], CreateFails(j), ws, steps, n);
    ws', steps' := GoOn(c, ws0 + [ws[n]], steps0 + [CreateFails(j)], ws, steps, n);
    LeftOverOverlaps(ws[n], j);
    assert ws'[|steps0|] == ws0[|steps0|];
  }

  /** After a blind admission the evidence fits a run in which campaigns overlap. */
  lemma BlindnessOverlaps(c: Codec, ws: seq<World>, steps: seq<Step>) returns (ws': seq<World>, steps': seq<Step>)
    requires c.Valid() && IsRun(c, ws, steps, false) && !NeverBlind(Evidence(ws, steps, |steps|))
    ensures LooksLike(c, ws', steps', ws, steps, |steps|) && !ExclusiveRun(ws')
  {
    var i := FirstBlind(c, ws, steps, |steps|);
    var ws0, steps0, j := BlindAdmissionLeavesWork(c, ws, steps, i);
    if ws[i + 1].pending != {} {
      ws', steps' := ws, steps;
      LeftOverOverlaps(ws[i + 1], j);
    } else {
      ws', steps' := OverlapAndGoOn(c, ws0, steps0, ws, steps, i + 1, j);
    }
  }

  lemma LeftOverOverlaps(w: World, j: Work)
    requires w.phase.Persisting?
    ensures !Exclusive(PendingOnly(w, j)) && (w.pending != {} ==> !Exclusive(w))
  {
    assert j in Works(PendingOnly(w, j));
  }

  lemma CreationFails(c: Codec, w: World, j: Work)
    requires w.alive == {} && w.pending == {}
    ensures NextStep(c, PendingOnly(w, j), w, CreateFails(j))
  {
  }

  lemma {:induction false} SightedIsExclusive(c: Codec, ws: seq<World>, steps: seq<Step>, n: nat)
    requires c.Valid() && IsRun(c, ws, steps, false) && n <= |steps| && NeverBlind(Evidence(ws, steps, n))
    ensures forall i | 0 <= i <= n :: Exclusive(ws[i])
  {
    RunTracks(c, ws, steps, n);
    AtMostOne(c, ws[n]);
    if ws[n].phase.Owning? {
      OwnersWork(c, ws[n]);
    }
    if n > 0 {
      NotedOn(Evidence(ws, steps, n - 1), steps[n - 1], ws[n]);
      SightedIsExclusive(c, ws, steps, n - 1);
    }
  }

  /**
   What the evidence of a run proves: campaigns have excluded one another in every run that looks
   like it if and only if no admission in it was over a container launch without its create ID file.
  */
  lemma EvidenceDecides(c: Codec, ws: seq<World>, steps: seq<Step>)
    requires c.Valid() && IsRun(c, ws, steps, false)
    ensures (forall ws', steps' | IsRun(c, ws', steps', false) && SameEvidence(ws, steps, ws', steps') :: ExclusiveRun(ws'))
      <==> NeverBlind(Evidence(ws, steps, |steps|))
  {
    if NeverBlind(Evidence(ws, steps, |steps|)) {
      forall ws', steps' | IsRun(c, ws', steps', false) && SameEvidence(ws, steps, ws', steps') ensures ExclusiveRun(ws') {
        SightedIsExclusive(c, ws', steps', |steps'|);
      }
    } else {
      var ws', steps' := BlindnessOverlaps(c, ws, steps);
      assert SameEvidence(ws, steps, ws', steps');
    }
  }

  /** Asking for the create ID files at every admission, as a normal cleanup does, is enough. */
  lemma {:induction false} CarefulIsNeverBlind(c: Codec, ws: seq<World>, steps: seq<Step>, n: nat)
    requires c.Valid() && IsRun(c, ws, steps, true) && n <= |steps|
    ensures IsRun(c, ws, steps, false) && NeverBlind(Evidence(ws, steps, n))
  {
    forall i | 0 <= i < |steps| ensures StepAt(c, ws, steps, false, i) {
      assert StepAt(c, ws, steps, true, i);
    }
    if n > 0 {
      var seen := Evidence(ws, steps, n - 1);
      CarefulIsNeverBlind(c, ws, steps, n - 1);
      NotedOn(seen, steps[n - 1], ws[n]);
      if steps[n - 1].Admit? && Outstanding(seen).Some? {
        assert StepAt(c, ws, steps, true, n - 1);
        RunTracks(c, ws, steps, n - 1);
        var j := Outstanding(seen).value;
        var r := Intent(j.owner, j.entry);
        StripEncoded(c, r);
        assert Some(j.entry) in r.inFlight.value;
      }
    }
  }

  /** A first blind admission can be followed by the older container coming alive under the new campaign. */
  lemma BlindAdmissionOverlaps(c: Codec, ws: seq<World>, steps: seq<Step>, i: nat)
    returns (ws': seq<World>, steps': seq<Step>, j: Work, w: World)
    requires c.Valid() && IsRun(c, ws, steps, false) && i < |steps| && NeverBlind(Evidence(ws, steps, i))
    requires BlindLast(Evidence(ws, steps, i + 1)) && steps[i].Admit?
    ensures LooksLike(c, ws', steps', ws, steps, i + 1)
    ensures Reaches(c, ws'[|steps'|], w, false) && w.alive == {j} && j.entry.kind == "container"
    ensures ws[i].phase.Checking? && w.phase == Owning(ws[i].phase.pid, Active(ws[i].phase.pid), Ready)
  {
    ws', steps', j := BlindAdmissionLeavesWork(c, ws, steps, i);
    var x := ws'[|steps'|];
    assert StepAt(c, ws, steps, false, i);
    ReachSelf(c, x, false);
    NothingWritten(x.file, c.encode(x.phase.record));
    PersistFinishes(c, x, x, false);
    var y := AllWritten(c, x);
    w := y.(pending := {}, alive := {j});
    assert w == y.(pending := y.pending - {j}, alive := y.alive + {j});
    ReachStep(c, x, y, w, CreateLands(j), false);
  }

  /** A run without a blind admission, with no launch outstanding at its end. */
  ghost predicate Sighted(c: Codec, ws: seq<World>, steps: seq<Step>) {
    && IsRun(c, ws, steps, false) && NeverBlind(Evidence(ws, steps, |steps|))
    && Outstanding(Evidence(ws, steps, |steps|)) == None
  }

  lemma SightedOn(c: Codec, ws: seq<World>, steps: seq<Step>, w: World, step: Step)
    requires Sighted(c, ws, steps) && NextStep(c, ws[|steps|], w, step) && Shown(step) != Some(Launch)
    ensures Sighted(c, ws + [w], steps + [step])
  {
    ChainOn(c, ws, steps, false, w, step);
    EvidenceOn(ws, steps, w, step);
    NotedOn(Evidence(ws, steps, |steps|), step, w);
  }

  /** The first owner has recorded its intent to launch. */
  function ArmedWorld(c: Codec, p: int, e: Entry, live: set<int>, cids: set<string>): World {
    World(c.encode(Intent(p, e)), live + {p}, {}, {}, cids, Owning(p, Intent(p, e), Armed))
  }

  lemma ArmedRun(c: Codec, p: int, e: Entry, live: set<int>, q: int, cids: set<string>)
    returns (ws: seq<World>, steps: seq<Step>)
    requires c.Valid() && Dead(p, e, live, q)
    ensures Sighted(c, ws, steps) && ws[|steps|] == ArmedWorld(c, p, e, live, cids)
  {
    var w := ArmedWorld(c, p, e, live, cids);
    FirstOwner(c, p, e, live, q, cids);
    var w0 :| Init(w0) && Reaches(c, w0, w, true);
    ws, steps :| Chain(c, ws, steps, true) && ws[0] == w0 && ws[|ws| - 1] == w;
    CarefulIsNeverBlind(c, ws, steps, |steps|);
    RunTracks(c, ws, steps, |steps|);
  }

  /** It dies, and the next campaign finds its record and admits itself, asking for nothing more. */
  lemma DeathAndAdmission(c: Codec, p: int, e: Entry, live: set<int>, q: int, cids: set<string>)
    requires c.Valid() && Dead(p, e, live, q)
    ensures var w, found, removed := ArmedWorld(c, p, e, live, cids), Found(c, p, e, live, q, cids), {e.container.value};
      && NextStep(c, w, found.(phase := Idle), Crash(p))
      && NextStep(c, found.(phase := Idle), found, Acquire(q))
      && NextStep(c, found, Persist(found, q, Active(q), Some(Ready)), Admit(removed, {}))
  {
    assert live + {p} - {p} == live && AfterDeath({}, p) == {};
    RecordDecides(c, p, e, live, {e.container.value});
  }

  lemma NotAsked(c: Codec, p: int, e: Entry, live: set<int>, q: int, cids: set<string>)
    requires c.Valid() && Dead(p, e, live, q) && e.workspace !in cids
    ensures !Careful(c, Found(c, p, e, live, q, cids))
  {
    StripEncoded(c, Intent(p, e));
    assert Some(e) in Intent(p, e).inFlight.value;
  }

  /**
   Asking is not always needed: an owner that died between recording its intent and launching leaves
   a record without a create ID file, and an admission over it is not blind.
  */
  lemma CarelessButSighted(c: Codec, p: int, e: Entry, live: set<int>, q: int, cids: set<string>)
    returns (ws: seq<World>, steps: seq<Step>)
    requires c.Valid() && Dead(p, e, live, q) && e.workspace !in cids
    ensures IsRun(c, ws, steps, false) && NeverBlind(Evidence(ws, steps, |steps|))
    ensures |steps| > 0 && steps[|steps| - 1].Admit? && !Careful(c, ws[|steps| - 1])
  {
    ws, steps := ArmedRun(c, p, e, live, q, cids);
    DeathAndAdmission(c, p, e, live, q, cids);
    NotAsked(c, p, e, live, q, cids);
    var found, admit := Found(c, p, e, live, q, cids), Admit({e.container.value}, {});
    var admitted := Persist(found, q, Active(q), Some(Ready));
    ws, steps := SightedRun(c, ws, steps, found.(phase := Idle), Crash(p));
    ws, steps := SightedRun(c, ws, steps, found, Acquire(q));
    ws, steps := SightedRun(c, ws, steps, admitted, admit);
  }

  lemma SightedRun(c: Codec, ws: seq<World>, steps: seq<Step>, w: World, step: Step)
    returns (ws': seq<World>, steps': seq<Step>)
    requires Sighted(c, ws, steps) && NextStep(c, ws[|steps|], w, step) && Shown(step) != Some(Launch)
    ensures Sighted(c, ws', steps') && |steps'| == |steps| + 1 && ws'[|steps'|] == w
    ensures steps'[|steps|] == step && ws'[|steps|] == ws[|steps|]
  {
    SightedOn(c, ws, steps, w, step);
    ws', steps' := ws + [w], steps + [step];
  }
}
