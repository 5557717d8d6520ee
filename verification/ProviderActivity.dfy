/**
 Request, attempt and tool counts from the event stream of one agent run
 (scripts/bench/observations.py, `activity`). The stream may replay events and may be
 incomplete: a count is reported only when nothing contradicts it.
*/
module ProviderActivity {
  import opened Wrappers

  /** A decoded scalar; `Tree` stands for an object or a list, up to equality of its content. */
  datatype Json = Null | Bool(b: bool) | Int(i: int) | Float(r: real) | Str(s: string) | Tree(id: int)

  /** Equal values have equal canonical forms: True, 1 and 1.0 are one value. */
  function Canonical(j: Json): Json {
    match j
    case Bool(b) => Float(if b then 1.0 else 0.0)
    case Int(i) => Float(i as real)
    case _ => j
  }

  datatype Purpose = Coding | Worker | Reviewer | Compaction | Learning | SecurityWatch | Prewarm

  datatype Kind = LogicalStart | LogicalEnd | AttemptStart | AttemptEnd | CacheDrop
                | TelemetryOverflow | UnknownKind

  datatype Status = Completed | Failed | Cancelled | OtherStatus(value: Json)

  /** `usage` of a receipt: an object with token fields and other content, or something else. */
  datatype Usage = UsageObject(input: Json, cacheRead: Json, cacheWrite: Json, output: Json, other: int)
                 | NotObject(value: Json)

  /**
   A provider observation. `versioned`: its schema version is the integer 1; `purpose` is None
   unless it is one of the known purposes; `request` is None unless it is a nonempty string.
  */
  datatype Observation = Observation(
    versioned: bool, purpose: Option<Purpose>, request: Option<string>, kind: Kind,
    root: Json, actor: Json, status: Status, attempt: Json,
    usage: Usage, rawUsage: Json, usageComplete: Json, model: Json, tier: Json)

  /** The events that the counts depend on; absent reasons are None, and so are call IDs that are no text. */
  datatype Event =
    | Provider(observation: Option<Observation>)
    | CompletionReminder(reason: Option<string>)
    | MessageEnd(reminder: Option<string>, verificationCalls: set<string>)
    | ToolStart(callId: Option<string>, name: string)
    | Other

  datatype Key = Key(purpose: Purpose, request: string)
  datatype AttemptKey = AttemptKey(key: Key, attempt: int)
  datatype Owner = Owner(root: Json, purpose: Purpose, actor: Json)

  datatype Requests = Requests(
    logical: set<Key>, ended: set<Key>, attempts: set<AttemptKey>, attemptsEnded: set<AttemptKey>,
    owners: map<string, Owner>, seen: bool, overflow: bool, unknownOutcome: bool,
    reasons: map<string, nat>, afterReminder: nat)

  datatype ToolCalls = ToolCalls(
    autoIds: set<string>, started: set<string>, autoRuns: nat, topLevel: nat,
    names: map<string, nat>)

  datatype Activity = Activity(requests: Requests, calls: ToolCalls)

  const START := Activity(Requests({}, {}, {}, {}, map[], false, false, false, map[], 0),
                          ToolCalls({}, {}, 0, 0, map[]))

  function Bump(m: map<string, nat>, key: string): map<string, nat> {
    m[key := (if key in m then m[key] else 0) + 1]
  }

  predicate ValidAttempt(attempt: Json) { attempt.Int? && attempt.i >= 1 }

  predicate Identified(o: Observation) { o.versioned && o.request.Some? && o.purpose.Some? }

  function KeyOf(o: Observation): Key
    requires o.request.Some? && o.purpose.Some?
  {
    Key(o.purpose.value, o.request.value)
  }

  function OwnerOf(o: Observation): Owner
    requires o.purpose.Some?
  {
    Owner(Canonical(o.root), o.purpose.value, Canonical(o.actor))
  }

  function Conflicting(a: Requests, o: Observation): bool
    requires o.request.Some? && o.purpose.Some?
  {
    o.root != Null && o.request.value in a.owners && a.owners[o.request.value] != OwnerOf(o)
  }

  /** Attribution and outcome, before the kind of the observation is looked at. */
  function Attributed(a: Requests, o: Observation): Requests
    requires Identified(o)
  {
    a.(seen := true,
       overflow := a.overflow || Conflicting(a, o),
       owners := if o.root == Null then a.owners else a.owners[o.request.value := OwnerOf(o)],
       unknownOutcome := a.unknownOutcome
         || (o.kind in {AttemptEnd, LogicalEnd} && o.status.OtherStatus?))
  }

  function Counted(a: Requests, o: Observation): Requests
    requires Identified(o)
  {
    var key := KeyOf(o);
    match o.kind
    case LogicalStart =>
      a.(logical := a.logical + {key},
         afterReminder := a.afterReminder
           + (if key !in a.logical && a.reasons != map[] && key.purpose == Coding then 1 else 0))
    case LogicalEnd => a.(ended := a.ended + {key})
    case AttemptStart =>
      if ValidAttempt(o.attempt) then
        a.(attempts := a.attempts + {AttemptKey(key, o.attempt.i)})
      else a.(overflow := true)
    case AttemptEnd =>
      if ValidAttempt(o.attempt) then
        a.(attemptsEnded := a.attemptsEnded + {AttemptKey(key, o.attempt.i)})
      else a.(overflow := true)
    case CacheDrop => a
    case TelemetryOverflow => a.(overflow := true)
    case UnknownKind => a.(overflow := true)
  }

  function Observed(a: Requests, observation: Option<Observation>): Requests {
    if observation.None? || !Identified(observation.value) then a.(overflow := true)
    else Counted(Attributed(a, observation.value), observation.value)
  }

  function Reminded(a: Requests, reason: Option<string>): Requests {
    if reason.Some? then a.(reasons := Bump(a.reasons, reason.value)) else a
  }

  /** An empty call ID identifies no call, although a verification may name it. */
  predicate Identifies(callId: Option<string>) { callId.Some? && callId.value != "" }

  function Started(c: ToolCalls, callId: Option<string>, name: string): ToolCalls {
    if Identifies(callId) && callId.value in c.started then c
    else
      var d := if Identifies(callId) then c.(started := c.started + {callId.value}) else c;
      if callId.Some? && callId.value in c.autoIds then d.(autoRuns := d.autoRuns + 1)
      else d.(topLevel := d.topLevel + 1, names := Bump(d.names, name))
  }

  function Step(a: Activity, e: Event): Activity {
    match e
    case Provider(observation) => a.(requests := Observed(a.requests, observation))
    case CompletionReminder(reason) => a.(requests := Reminded(a.requests, reason))
    case MessageEnd(reminder, ids) =>
      Activity(Reminded(a.requests, reminder), a.calls.(autoIds := a.calls.autoIds + ids))
    case ToolStart(callId, name) => a.(calls := Started(a.calls, callId, name))
    case Other => a
  }

  function Fold(a: Activity, events: seq<Event>): Activity
    decreases |events|
  {
    if events == [] then a else Fold(Step(a, events[0]), events[1..])
  }

  lemma {:induction false} FoldAppend(a: Activity, es: seq<Event>, fs: seq<Event>)
    ensures Fold(a, es + fs) == Fold(Fold(a, es), fs)
    decreases |es|
  {
    if es == [] {
      assert es + fs == fs;
    } else {
      assert (es + fs)[1..] == es[1..] + fs;
      FoldAppend(Step(a, es[0]), es[1..], fs);
    }
  }

  lemma FoldOne(a: Activity, es: seq<Event>, e: Event)
    ensures Fold(a, es + [e]) == Step(Fold(a, es), e)
  {
    FoldAppend(a, es, [e]);
    assert [e][1..] == [];
  }

  predicate Available(a: Requests) { a.seen && !a.overflow }

  /** Is every request and attempt seen to its known end, and every attempt part of a request? */
  predicate CompleteMetrics(a: Requests) {
    && Available(a) && !a.unknownOutcome && a.logical == a.ended && a.attempts == a.attemptsEnded
    && forall k | k in a.attempts :: k.key in a.logical
  }

  /** The reported counts; None is "unknown". */
  datatype Counts = Counts(
    logicalRequests: Option<nat>, providerAttempts: Option<nat>, codingAttempts: Option<nat>,
    prewarmAttempts: Option<nat>, complete: bool, afterReminder: Option<nat>,
    autoRuns: nat, toolCalls: nat, tools: map<string, nat>)

  function Report(activity: Activity): Counts {
    var a, c := activity.requests, activity.calls;
    var known := Available(a);
    Counts(
      if known then Some(|set k | k in a.logical && k.purpose == Coding|) else None,
      if known then Some(|a.attempts|) else None,
      if known then Some(|set k | k in a.attempts && k.key.purpose == Coding|) else None,
      if known then Some(|set k | k in a.attempts && k.key.purpose == Prewarm|) else None,
      CompleteMetrics(a),
      if known then Some(a.afterReminder) else None,
      c.autoRuns, c.topLevel, c.names)
  }

  // Replays.

  /** Everything agrees except attributions that an earlier conflict made irrelevant. */
  ghost predicate RequestsAlike(a: Requests, b: Requests) {
    a == b || (a.overflow && a == b.(owners := a.owners))
  }

  ghost predicate Alike(a: Activity, b: Activity) {
    a.calls == b.calls && RequestsAlike(a.requests, b.requests)
  }

  lemma ObservedAlike(a: Requests, b: Requests, o: Observation)
    requires a.overflow && a == b.(owners := a.owners) && Identified(o)
    ensures RequestsAlike(Counted(Attributed(a, o), o), Counted(Attributed(b, o), o))
  {
    var a', b' := Attributed(a, o), Attributed(b, o);
    assert a'.overflow && a' == b'.(owners := a'.owners);
    match o.kind
    case LogicalStart =>
    case LogicalEnd =>
    case AttemptStart =>
    case AttemptEnd =>
    case _ =>
  }

  lemma StepAlike(a: Activity, b: Activity, e: Event)
    requires Alike(a, b)
    ensures Alike(Step(a, e), Step(b, e))
  {
    if e.Provider? && a.requests != b.requests {
      if e.observation.Some? && Identified(e.observation.value) {
        ObservedAlike(a.requests, b.requests, e.observation.value);
      }
    }
  }

  lemma {:induction false} FoldAlike(a: Activity, b: Activity, events: seq<Event>)
    requires Alike(a, b)
    ensures Alike(Fold(a, events), Fold(b, events))
    decreases |events|
  {
    if events != [] {
      StepAlike(a, b, events[0]);
      FoldAlike(Step(a, events[0]), Step(b, events[0]), events[1..]);
    }
  }

  /** Has everything that `o` can contribute already been contributed? */
  ghost predicate ObservationAbsorbed(a: Requests, o: Observation)
    requires Identified(o)
  {
    var key := KeyOf(o);
    && a.seen
    && (a.overflow || o.root == Null
        || (o.request.value in a.owners && a.owners[o.request.value] == OwnerOf(o)))
    && (o.kind in {AttemptEnd, LogicalEnd} && o.status.OtherStatus? ==> a.unknownOutcome)
    && match o.kind
       case LogicalStart => key in a.logical
       case LogicalEnd => key in a.ended
       case AttemptStart =>
         if ValidAttempt(o.attempt) then AttemptKey(key, o.attempt.i) in a.attempts else a.overflow
       case AttemptEnd =>
         if ValidAttempt(o.attempt) then AttemptKey(key, o.attempt.i) in a.attemptsEnded
         else a.overflow
       case CacheDrop => true
       case _ => a.overflow
  }

  ghost predicate Absorbed(a: Activity, e: Event) {
    match e
    case Provider(observation) =>
      if observation.None? || !Identified(observation.value) then a.requests.overflow
      else ObservationAbsorbed(a.requests, observation.value)
    case ToolStart(callId, _) => Identifies(callId) && callId.value in a.calls.started
    case _ => false
  }

  lemma AbsorbedOnceSeen(a: Activity, e: Event)
    requires e.Provider? || (e.ToolStart? && Identifies(e.callId))
    ensures Absorbed(Step(a, e), e)
  {
  }

  /** What can only grow along a stream; an attribution changes only together with `overflow`. */
  ghost predicate RequestsGrow(a: Requests, b: Requests) {
    && (a.seen ==> b.seen) && (a.overflow ==> b.overflow) && (a.unknownOutcome ==> b.unknownOutcome)
    && a.logical <= b.logical && a.ended <= b.ended
    && a.attempts <= b.attempts && a.attemptsEnded <= b.attemptsEnded
    && forall r | r in a.owners :: r in b.owners && (b.overflow || b.owners[r] == a.owners[r])
  }

  ghost predicate Grows(a: Activity, b: Activity) {
    RequestsGrow(a.requests, b.requests) && a.calls.started <= b.calls.started
  }

  lemma ObservedGrows(a: Requests, o: Observation)
    requires Identified(o)
    ensures RequestsGrow(a, Counted(Attributed(a, o), o))
  {
    assert RequestsGrow(a, Attributed(a, o));
    match o.kind
    case LogicalStart =>
    case LogicalEnd =>
    case AttemptStart =>
    case AttemptEnd =>
    case _ =>
  }

  lemma StepGrows(a: Activity, e: Event)
    ensures Grows(a, Step(a, e))
  {
    if e.Provider? && e.observation.Some? && Identified(e.observation.value) {
      ObservedGrows(a.requests, e.observation.value);
    }
  }

  lemma GrowsKeepsAbsorbed(a: Activity, b: Activity, e: Event)
    requires Absorbed(a, e) && Grows(a, b)
    ensures Absorbed(b, e)
  {
  }

  lemma {:induction false} FoldKeepsAbsorbed(a: Activity, e: Event, events: seq<Event>)
    requires Absorbed(a, e)
    ensures Absorbed(Fold(a, events), e)
    decreases |events|
  {
    if events != [] {
      StepGrows(a, events[0]);
      GrowsKeepsAbsorbed(a, Step(a, events[0]), e);
      FoldKeepsAbsorbed(Step(a, events[0]), e, events[1..]);
    }
  }

  lemma AbsorbedChangesNothing(a: Activity, e: Event)
    requires Absorbed(a, e)
    ensures Alike(Step(a, e), a)
  {
    if e.Provider? && e.observation.Some? && Identified(e.observation.value) {
      var r, o := a.requests, e.observation.value;
      assert Attributed(r, o) == r.(owners := Attributed(r, o).owners);
      assert Attributed(r, o).owners == r.owners || r.overflow;
      assert KeyOf(o) in r.logical ==> r.logical + {KeyOf(o)} == r.logical;
      assert RequestsAlike(Counted(Attributed(r, o), o), r);
    }
  }

  /**
   Replaying a provider observation, or the start of an identified tool call, anywhere after its
   first occurrence changes none of the reported counts, whatever happens in between and after.
  */
  lemma ReplayChangesNoCount(before: seq<Event>, e: Event, between: seq<Event>, after: seq<Event>)
    requires e.Provider? || (e.ToolStart? && Identifies(e.callId))
    ensures Report(Fold(START, before + [e] + between + [e] + after))
         == Report(Fold(START, before + [e] + between + after))
  {
    var s := Fold(START, before + [e]);
    FoldOne(START, before, e);
    AbsorbedOnceSeen(Fold(START, before), e);
    FoldKeepsAbsorbed(s, e, between);
    var t := Fold(s, between);
    AbsorbedChangesNothing(t, e);
    FoldAlike(Step(t, e), t, after);
    FoldAppend(START, before + [e], between);
    FoldOne(START, before + [e] + between, e);
    FoldAppend(START, before + [e] + between + [e], after);
    FoldAppend(START, before + [e] + between, after);
  }
}
