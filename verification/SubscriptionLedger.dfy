/** The request ledger of a subscription campaign (scripts/bench/subscription_campaign.py). */
module SubscriptionLedger {
  // With the subscription steps of `run_one` in scripts/bench/bench.py. The ledger file is written by
  // the harness and may hold anything at any time; a run counts only if it passes both checks.

  import opened Wrappers

  type Id = string

  datatype Reservation = Reservation(disposition: string, detail: string)

  type Reservations = map<Id, Reservation>

  /** `halted` is true when the member is anything but the value false. */
  datatype Ledger = Ledger(schema: int, root: string, limits: string, halted: bool, reservations: Option<Reservations>)

  datatype File = Absent | Unreadable | Present(ledger: Ledger)

  datatype Reason = ProcessFailed | Halted | Unresolved | Replaced | NoNewRequest | MissingLedger | CleanupFailed
                  | OutputStop | ModelStop | ForbiddenArtifact | InventoryFailed
                  | RegressionCleanupFailed | GraderCleanupFailed | GradingFailed

  datatype Error = AllowanceExhausted | LedgerChanged | NoLedger | BudgetChanged

  predicate AllCommitted(r: Reservations) { forall id | id in r :: r[id].disposition == "committed" }

  /** Nothing reserved before is missing or different. */
  predicate Keeps(before: Reservations, after: Reservations) {
    forall id | id in before :: id in after && after[id] == before[id]
  }

  /** What inspecting the workspace found. */
  datatype Inspection = Unavailable | Inspected(artifactLeak: bool)

  /** How grading ended, whatever the grade. */
  datatype Grading = Graded | RegressionUnclean | GraderUnclean | GraderFailed

  /** What happened between the two checks of a run, and what its output says about stopping. */
  datatype Outcome = Outcome(cleanup: bool, code: int, outputStop: bool, modelStop: bool, file: File,
                             inspection: Inspection, grading: Grading)

  /** What stops a run after its ledger has passed. */
  function LaterStop(o: Outcome): Option<Reason> {
    if o.modelStop then Some(ModelStop)
    else if o.inspection.Unavailable? then Some(InventoryFailed)
    else if o.inspection.artifactLeak then Some(ForbiddenArtifact)
    else match o.grading
      case Graded => None
      case RegressionUnclean => Some(RegressionCleanupFailed)
      case GraderUnclean => Some(GraderCleanupFailed)
      case GraderFailed => Some(GradingFailed)
  }

  /** The rules of one campaign, which never change. */
  datatype Rules = Rules(root: string, limits: string, maxRequests: nat, deadline: int)

  /** The ledger is this campaign's own and within its cap. */
  predicate OwnLedger(rules: Rules, l: Ledger) {
    && l.schema == 1 && l.root == rules.root && l.limits == rules.limits
    && l.reservations.Some? && |l.reservations.value| <= rules.maxRequests
  }

  /** What the second check finds, in the order in which it looks. */
  function LedgerStop(rules: Rules, file: File, code: int, before: Reservations): Option<Reason> {
    if code != 0 then Some(ProcessFailed)
    else if !file.Present? || !OwnLedger(rules, file.ledger) then Some(MissingLedger)
    else if file.ledger.halted then Some(Halted)
    else
      var after := file.ledger.reservations.value;
      if after == map[] || !AllCommitted(after) then Some(Unresolved)
      else if !Keeps(before, after) then Some(Replaced)
      else if after.Keys - before.Keys == {} then Some(NoNewRequest)
      else None
  }

  class Subscription {
    const rules: Rules
    var previous: Reservations

    constructor (rules: Rules)
      ensures this.rules == rules && previous == map[] && Valid()
    {
      this.rules, previous := rules, map[];
    }

    /** Everything accepted so far is committed and within the cap. */
    ghost predicate Valid()
      reads this
    {
      AllCommitted(previous) && |previous| <= rules.maxRequests
    }

    method ReadLedger(file: File) returns (r: Result<Ledger, Error>)
      ensures r == if file.Absent? then Err(NoLedger)
                   else if file.Present? && OwnLedger(rules, file.ledger) then Ok(file.ledger) else Err(LedgerChanged)
    {
      if file.Absent? {
        return Err(NoLedger);
      }
      if !file.Present? || !OwnLedger(rules, file.ledger) {
        return Err(LedgerChanged);
      }
      return Ok(file.ledger);
    }

    /** What the file holds is exactly what the campaign has accepted. */
    predicate Unchanged(file: File)
      reads this`previous
    {
      && AllCommitted(previous)
      && match file
         case Absent => previous == map[]
         case Unreadable => false
         case Present(l) => OwnLedger(rules, l) && !l.halted && l.reservations == Some(previous)
    }

    method Snapshot(file: File) returns (r: Result<Reservations, Error>)
      ensures r == if Unchanged(file) then Ok(previous) else Err(LedgerChanged)
    {
      var ledger := ReadLedger(file);
      var halted, reservations := false, map[];
      if ledger.Ok? {
        halted, reservations := ledger.value.halted, ledger.value.reservations.value;
      } else if ledger.error != NoLedger {
        return Err(LedgerChanged);
      }
      if halted || !AllCommitted(reservations) || reservations != previous {
        return Err(LedgerChanged);
      }
      return Ok(reservations);
    }

    /** The run added at least one committed reservation and kept every earlier one. */
    predicate Extends(file: File, before: Reservations) {
      && file.Present? && OwnLedger(rules, file.ledger) && !file.ledger.halted
      && var after := file.ledger.reservations.value;
         AllCommitted(after) && Keeps(before, after) && after.Keys - before.Keys != {}
    }

    method StopReason(file: File, code: int, before: Reservations) returns (r: Option<Reason>)
      requires Valid()
      modifies this`previous
      ensures Valid()
      ensures r.None? <==> code == 0 && Extends(file, before)
      ensures r == LedgerStop(rules, file, code, before)
      ensures previous == if r.None? then file.ledger.reservations.value else old(previous)
    {
      if code != 0 {
        return Some(ProcessFailed);
      }
      var ledger := ReadLedger(file);
      if ledger.Err? {
        return Some(MissingLedger);
      }
      var reservations := ledger.value.reservations.value;
      if ledger.value.halted {
        return Some(Halted);
      }
      if reservations == map[] || !AllCommitted(reservations) {
        return Some(Unresolved);
      }
      if !Keeps(before, reservations) {
        return Some(Replaced);
      }
      if reservations.Keys - before.Keys == {} {
        return Some(NoNewRequest);
      }
      previous := reservations;
      return None;
    }

    /** The run may start and nothing stops it. `frozen`: binary, catalog and budget are what they were. */
    predicate Accepts(now: int, frozen: bool, start: File, outcome: Outcome)
      reads this`previous
    {
      && now < rules.deadline && Unchanged(start) && frozen
      && outcome.cleanup && !outcome.outputStop && outcome.code == 0 && Extends(outcome.file, previous)
      && LaterStop(outcome).None?
    }

    /** One run: refused before it starts, stopped after it, or accepted (no reason). */
    method RunOne(now: int, frozen: bool, start: File, outcome: Outcome) returns (r: Result<Option<Reason>, Error>)
      requires Valid()
      modifies this`previous
      ensures Valid()
      ensures r == Ok(None) <==> old(Accepts(now, frozen, start, outcome))
      ensures r == Ok(None) <==> AcceptedStep(rules, old(previous), Attempt(now, frozen, start, outcome), previous)
      ensures r ==
        if rules.deadline <= now then Err(AllowanceExhausted)
        else if !old(Unchanged(start)) then Err(LedgerChanged)
        else if !frozen then Err(BudgetChanged)
        else if !outcome.cleanup then Ok(Some(CleanupFailed))
        else if outcome.outputStop then Ok(Some(OutputStop))
        else if LedgerStop(rules, outcome.file, outcome.code, old(previous)).Some?
        then Ok(LedgerStop(rules, outcome.file, outcome.code, old(previous)))
        else Ok(LaterStop(outcome))
      ensures r == Ok(None) ==> outcome.file.Present? && outcome.file.ledger.reservations == Some(previous)
      ensures r == Ok(None) ==> Keeps(old(previous), previous) && |old(previous)| < |previous|
      ensures previous != old(previous) ==> r == Ok(LaterStop(outcome)) && Keeps(old(previous), previous)
    {
      if outcome.file.Present? && outcome.file.ledger.reservations.Some? {
        NewKeys(previous, outcome.file.ledger.reservations.value);
      }
      if rules.deadline <= now {
        return Err(AllowanceExhausted);
      }
      var before := Snapshot(start);
      if before.Err? {
        return Err(before.error);
      }
      if !frozen {
        return Err(BudgetChanged);
      }
      if !outcome.cleanup {
        return Ok(Some(CleanupFailed));
      }
      if outcome.outputStop {
        return Ok(Some(OutputStop));
      }
      var stopped := StopReason(outcome.file, outcome.code, before.value);
      if stopped.None? {
        StrictlyMore(before.value, previous);
        return Ok(LaterStop(outcome));
      }
      return Ok(stopped);
    }
  }

  lemma StrictlyMore(before: Reservations, after: Reservations)
    requires Keeps(before, after) && after.Keys - before.Keys != {}
    ensures |before| < |after|
  {
    var id := MemberOf(after.Keys - before.Keys);
    Smaller(before.Keys, after.Keys - {id});
  }

  lemma {:induction false} Smaller<T>(a: set<T>, b: set<T>)
    requires a <= b
    ensures |a| <= |b|
    decreases |a|
  {
    if a != {} {
      var x := MemberOf(a);
      Smaller(a - {x}, b - {x});
    }
  }

  // Whole campaigns.

  datatype Attempt = Attempt(now: int, frozen: bool, start: File, outcome: Outcome)

  /** `previous` is what has been accepted so far; the result is what is accepted after the attempt. */
  ghost predicate AcceptedStep(rules: Rules, previous: Reservations, a: Attempt, next: Reservations) {
    && a.now < rules.deadline && a.frozen && Undisturbed(a.outcome)
    && (if a.start.Present? then Says(rules, a.start.ledger, previous) else a.start.Absent? && previous == map[])
    && a.outcome.file.Present? && Says(rules, a.outcome.file.ledger, next)
    && (forall id | id in previous :: id in next && next[id] == previous[id]) && (exists id :: id in next && id !in previous)
  }

  /** The run ended well, was cleaned up and inspected, left no artifact behind and was graded. */
  predicate Undisturbed(o: Outcome) {
    && o.cleanup && o.code == 0 && !o.outputStop && !o.modelStop
    && o.inspection == Inspected(false) && o.grading == Graded
  }

  /** The campaign's own ledger, not halted and within the cap, says exactly this, all of it committed. */
  predicate Says(rules: Rules, l: Ledger, r: Reservations) {
    && l.schema == 1 && l.root == rules.root && l.limits == rules.limits && !l.halted
    && l.reservations == Some(r) && |r| <= rules.maxRequests
    && forall id | id in r :: r[id].disposition == "committed"
  }

  /** Each reason to stop after the ledger has passed, and what it takes; the first that applies counts. */
  lemma LaterStopIs(o: Outcome)
    ensures LaterStop(o) == Some(ModelStop) <==> o.modelStop
    ensures LaterStop(o) == Some(InventoryFailed) <==> !o.modelStop && o.inspection == Unavailable
    ensures LaterStop(o) == Some(ForbiddenArtifact) <==> !o.modelStop && o.inspection == Inspected(true)
    ensures !o.modelStop && o.inspection == Inspected(false) ==>
      LaterStop(o) == (if o.grading == Graded then None
                       else if o.grading == RegressionUnclean then Some(RegressionCleanupFailed)
                       else if o.grading == GraderUnclean then Some(GraderCleanupFailed) else Some(GradingFailed))
  {
  }

  /** The second check passes exactly if the ledger says more than before, and changes nothing of it. */
  lemma LedgerStopIs(rules: Rules, file: File, code: int, before: Reservations)
    ensures LedgerStop(rules, file, code, before).None? <==>
      && code == 0 && file.Present? && file.ledger.reservations.Some?
      && Says(rules, file.ledger, file.ledger.reservations.value)
      && (forall id | id in before :: id in file.ledger.reservations.value && file.ledger.reservations.value[id] == before[id])
      && exists id :: id in file.ledger.reservations.value && id !in before
    ensures LedgerStop(rules, file, code, before) == Some(ProcessFailed) <==> code != 0
    ensures LedgerStop(rules, file, code, before) == Some(Halted) <==>
      && code == 0 && file.Present? && file.ledger.halted && file.ledger.reservations.Some?
      && Says(rules, file.ledger.(halted := false, reservations := Some(map[])), map[])
      && |file.ledger.reservations.value| <= rules.maxRequests
  {
    if file.Present? && file.ledger.reservations.Some? {
      var after := file.ledger.reservations.value;
      NewKeys(before, after);
    }
  }

  lemma NewKeys(before: Reservations, after: Reservations)
    ensures after.Keys - before.Keys != {} <==> exists id :: id in after && id !in before
    ensures after == map[] ==> after.Keys - before.Keys == {}
  {
    if id :| id in after && id !in before {
      assert id in after.Keys - before.Keys;
    }
    if after.Keys - before.Keys != {} {
      var id := MemberOf(after.Keys - before.Keys);
      assert id in after && id !in before;
    }
  }

  /** `states[i]` is what has been accepted before the i-th attempt. */
  ghost predicate IsCampaign(rules: Rules, attempts: seq<Attempt>, states: seq<Reservations>) {
    && |states| == |attempts| + 1 && states[0] == map[]
    && forall i | 0 <= i < |attempts| :: AcceptedStep(rules, states[i], attempts[i], states[i + 1])
  }

  /** Every accepted run adds a request, so there are never more accepted runs than the cap. */
  lemma {:induction false} RunsWithinCap(rules: Rules, attempts: seq<Attempt>, states: seq<Reservations>, i: nat)
    requires IsCampaign(rules, attempts, states) && i < |states|
    ensures i <= |states[i]| <= rules.maxRequests && AllCommitted(states[i])
  {
    if i > 0 {
      RunsWithinCap(rules, attempts, states, i - 1);
      assert AcceptedStep(rules, states[i - 1], attempts[i - 1], states[i - 1 + 1]);
      NewKeys(states[i - 1], states[i]);
      StrictlyMore(states[i - 1], states[i]);
    }
  }

  /** What one run reserved, every later accepted state of the ledger still says. */
  lemma {:induction false} ReservationsLast(rules: Rules, attempts: seq<Attempt>, states: seq<Reservations>, i: nat, j: nat)
    requires IsCampaign(rules, attempts, states) && i <= j < |states|
    ensures Keeps(states[i], states[j])
    decreases j
  {
    if i < j {
      ReservationsLast(rules, attempts, states, i, j - 1);
      assert AcceptedStep(rules, states[j - 1], attempts[j - 1], states[j - 1 + 1]);
    }
  }

  /** The first check of a run sees exactly what the second check of the run before it accepted. */
  lemma NothingBetweenRuns(rules: Rules, attempts: seq<Attempt>, states: seq<Reservations>, i: nat)
    requires IsCampaign(rules, attempts, states) && i + 1 < |attempts|
    ensures attempts[i + 1].start.Present? && attempts[i].outcome.file.Present?
    ensures attempts[i + 1].start.ledger.reservations == attempts[i].outcome.file.ledger.reservations
  {
    assert AcceptedStep(rules, states[i], attempts[i], states[i + 1]);
    assert AcceptedStep(rules, states[i + 1], attempts[i + 1], states[i + 1 + 1]);
    NewKeys(states[i], states[i + 1]);
    StrictlyMore(states[i], states[i + 1]);
  }

  lemma OneMoreRun(rules: Rules, attempts: seq<Attempt>, states: seq<Reservations>, a: Attempt, next: Reservations)
    requires IsCampaign(rules, attempts, states) && AcceptedStep(rules, states[|attempts|], a, next)
    ensures IsCampaign(rules, attempts + [a], states + [next])
  {
  }

  /** The attempts, run one after another on one subscription, until one is not accepted. */
  method RunAll(s: Subscription, attempts: seq<Attempt>) returns (accepted: nat, ghost states: seq<Reservations>)
    requires s.previous == map[]
    modifies s`previous
    ensures accepted <= |attempts| && accepted <= s.rules.maxRequests
    ensures IsCampaign(s.rules, attempts[..accepted], states)
  {
    accepted, states := 0, [s.previous];
    while accepted < |attempts|
      invariant accepted <= |attempts| && s.Valid()
      invariant IsCampaign(s.rules, attempts[..accepted], states) && states[accepted] == s.previous
    {
      var a := attempts[accepted];
      ghost var before := s.previous;
      var r := s.RunOne(a.now, a.frozen, a.start, a.outcome);
      if r != Ok(None) {
        break;
      }
      assert AcceptedStep(s.rules, before, a, s.previous);
      OneMoreRun(s.rules, attempts[..accepted], states, a, s.previous);
      assert attempts[..accepted + 1] == attempts[..accepted] + [a];
      states := states + [s.previous];
      accepted := accepted + 1;
    }
    RunsWithinCap(s.rules, attempts[..accepted], states, accepted);
  }
}
