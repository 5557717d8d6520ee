/** What the reported counts say of the events themselves (scripts/bench/observations.py, `activity`). */
module ActivityFacts {
  // Nothing here is said by way of the pass over the events: counts are sizes of sets of requests,
  // attempts and positions in the stream, and conditions are conditions on the events.

  import opened ProviderActivity
  import opened Wrappers

  // The events.

  /** A provider observation that names a request and a purpose. */
  predicate Readable(e: Event) {
    && e.Provider? && e.observation.Some? && e.observation.value.versioned
    && e.observation.value.request.Some? && e.observation.value.purpose.Some?
  }

  predicate Is(e: Event, kind: Kind) { Readable(e) && e.observation.value.kind == kind }

  function RequestOf(e: Event): Key
    requires Readable(e)
  {
    Key(e.observation.value.purpose.value, e.observation.value.request.value)
  }

  predicate Numbered(e: Event) {
    Readable(e) && e.observation.value.attempt.Int? && e.observation.value.attempt.i >= 1
  }

  function AttemptOf(e: Event): AttemptKey
    requires Numbered(e)
  {
    AttemptKey(RequestOf(e), e.observation.value.attempt.i)
  }

  /** The requests that observations of this kind name. */
  ghost function Named(events: seq<Event>, kind: Kind): set<Key> {
    set e | e in events && Is(e, kind) :: RequestOf(e)
  }

  /** The attempts that observations of this kind name. */
  ghost function NamedAttempts(events: seq<Event>, kind: Kind): set<AttemptKey> {
    set e | e in events && Is(e, kind) && Numbered(e) :: AttemptOf(e)
  }

  /** Python's equality: true, 1 and 1.0 are equal, and so on. */
  predicate SameValue(a: Json, b: Json) {
    if Arithmetic(a) && Arithmetic(b) then Amount(a) == Amount(b) else a == b
  }

  predicate Arithmetic(j: Json) { j.Bool? || j.Int? || j.Float? }

  function Amount(j: Json): real
    requires Arithmetic(j)
  {
    if j.Bool? then (if j.b then 1.0 else 0.0) else if j.Int? then j.i as real else j.r
  }

  lemma CanonicalIsValue(a: Json, b: Json)
    ensures Canonical(a) == Canonical(b) <==> SameValue(a, b)
  {
  }

  /** The observation says whose request it is. */
  predicate Claims(e: Event, request: string) {
    Readable(e) && e.observation.value.request == Some(request) && e.observation.value.root != Null
  }

  predicate Disagree(e: Event, f: Event)
    requires Readable(e) && Readable(f)
  {
    var o, p := e.observation.value, f.observation.value;
    o.purpose != p.purpose || !SameValue(o.root, p.root) || !SameValue(o.actor, p.actor)
  }

  /** Something is lost or unreadable. */
  predicate Loss(e: Event) {
    e.Provider? &&
    (|| !Readable(e)
     || e.observation.value.kind in {TelemetryOverflow, UnknownKind}
     || (e.observation.value.kind in {AttemptStart, AttemptEnd} && !Numbered(e)))
  }

  ghost predicate Disputed(events: seq<Event>) {
    exists e, f, r :: e in events && f in events && Claims(e, r) && Claims(f, r) && Disagree(e, f)
  }

  /** Telemetry is there, nothing of it is lost, and no request changes hands. */
  ghost predicate Sound(events: seq<Event>) {
    && (exists e :: e in events && Readable(e))
    && (forall e | e in events :: !Loss(e))
    && !Disputed(events)
  }

  predicate UnknownEnd(e: Event) {
    (Is(e, AttemptEnd) || Is(e, LogicalEnd)) && e.observation.value.status.OtherStatus?
  }

  /** Every request and attempt has come to a known end, and every attempt belongs to a request. */
  ghost predicate AllEnded(events: seq<Event>) {
    && (forall e | e in events :: !UnknownEnd(e))
    && Named(events, LogicalStart) == Named(events, LogicalEnd)
    && NamedAttempts(events, AttemptStart) == NamedAttempts(events, AttemptEnd)
    && forall a | a in NamedAttempts(events, AttemptStart) :: a.key in Named(events, LogicalStart)
  }

  predicate Reminds(e: Event) {
    (e.CompletionReminder? && e.reason.Some?) || (e.MessageEnd? && e.reminder.Some?)
  }

  ghost predicate WasReminded(events: seq<Event>) { exists e :: e in events && Reminds(e) }

  /** The coding request is first named after a reminder. */
  ghost predicate Late(events: seq<Event>, k: Key) {
    exists i :: 0 <= i < |events| && LateAt(events, k, i)
  }

  ghost predicate LateAt(events: seq<Event>, k: Key, i: nat)
    requires i < |events|
  {
    && Is(events[i], LogicalStart) && RequestOf(events[i]) == k && k.purpose == Coding
    && k !in Named(events[..i], LogicalStart) && WasReminded(events[..i])
  }

  ghost function LateRequests(events: seq<Event>): set<Key> {
    set k | k in Named(events, LogicalStart) && Late(events, k)
  }

  // Tool calls, by their positions.

  /** The tool call starts here and has not been started before; an unidentified one never has. */
  predicate FirstStart(events: seq<Event>, i: nat)
    requires i < |events|
  {
    && events[i].ToolStart?
    && !(events[i].callId.Some? && events[i].callId.value != ""
         && exists j | 0 <= j < i :: events[j].ToolStart? && events[j].callId == events[i].callId)
  }

  /** A verification of the harness has announced the call. */
  predicate Announced(events: seq<Event>, i: nat)
    requires i < |events| && events[i].ToolStart?
  {
    events[i].callId.Some? && exists j | 0 <= j < i :: events[j].MessageEnd? && events[i].callId.value in events[j].verificationCalls
  }

  ghost function AutoStarts(events: seq<Event>): set<int> {
    set i | 0 <= i < |events| && FirstStart(events, i) && Announced(events, i)
  }

  ghost function OwnStarts(events: seq<Event>): set<int> {
    set i | 0 <= i < |events| && FirstStart(events, i) && !Announced(events, i)
  }

  ghost function OwnStartsOf(events: seq<Event>, name: string): set<int> {
    set i | i in OwnStarts(events) && events[i].name == name
  }

  // The state of the pass.

  /** What one event does to what is known of requests. */
  ghost predicate RequestsMove(a: Requests, b: Requests, e: Event) {
    && b.logical == a.logical + (if Is(e, LogicalStart) then {RequestOf(e)} else {})
    && b.ended == a.ended + (if Is(e, LogicalEnd) then {RequestOf(e)} else {})
    && b.attempts == a.attempts + (if Is(e, AttemptStart) && Numbered(e) then {AttemptOf(e)} else {})
    && b.attemptsEnded == a.attemptsEnded + (if Is(e, AttemptEnd) && Numbered(e) then {AttemptOf(e)} else {})
    && (b.seen <==> a.seen || Readable(e))
    && (b.unknownOutcome <==> a.unknownOutcome || UnknownEnd(e))
    && (b.reasons != map[] <==> a.reasons != map[] || Reminds(e))
    && (b.overflow <==> a.overflow || Loss(e) || Contradicts(a, e))
    && b.owners == (if Readable(e) && e.observation.value.root != Null
                    then a.owners[e.observation.value.request.value := OwnerOf(e.observation.value)] else a.owners)
    && b.afterReminder == a.afterReminder
      + (if Is(e, LogicalStart) && RequestOf(e).purpose == Coding
            && RequestOf(e) !in a.logical && a.reasons != map[] then 1 else 0)
  }

  ghost predicate Contradicts(a: Requests, e: Event) {
    Readable(e) && Conflicting(a, e.observation.value)
  }

  lemma AttributedMoves(a: Requests, o: Observation)
    requires Identified(o)
    ensures var b := Attributed(a, o);
      && b.seen && (b.overflow <==> a.overflow || Conflicting(a, o))
      && b.owners == (if o.root != Null then a.owners[o.request.value := OwnerOf(o)] else a.owners)
      && (b.unknownOutcome <==> a.unknownOutcome || (o.kind in {AttemptEnd, LogicalEnd} && o.status.OtherStatus?))
      && b.logical == a.logical && b.ended == a.ended && b.attempts == a.attempts
      && b.attemptsEnded == a.attemptsEnded && b.reasons == a.reasons && b.afterReminder == a.afterReminder
  {
  }

  lemma CountedMoves(a: Requests, o: Observation)
    requires Identified(o)
    ensures var b := Counted(a, o);
      && b.seen == a.seen && b.owners == a.owners && b.unknownOutcome == a.unknownOutcome && b.reasons == a.reasons
      && (b.overflow <==> a.overflow || o.kind in {TelemetryOverflow, UnknownKind}
                          || (o.kind in {AttemptStart, AttemptEnd} && !ValidAttempt(o.attempt)))
      && b.logical == a.logical + (if o.kind == LogicalStart then {KeyOf(o)} else {})
      && b.ended == a.ended + (if o.kind == LogicalEnd then {KeyOf(o)} else {})
      && b.afterReminder == a.afterReminder
        + (if o.kind == LogicalStart && KeyOf(o).purpose == Coding && KeyOf(o) !in a.logical && a.reasons != map[]
           then 1 else 0)
  {
    match o.kind
    case LogicalStart =>
    case LogicalEnd =>
    case AttemptStart =>
    case AttemptEnd =>
    case _ =>
  }

  lemma CountedAttempts(a: Requests, o: Observation)
    requires Identified(o)
    ensures var b := Counted(a, o);
      && b.attempts == a.attempts
        + (if o.kind == AttemptStart && ValidAttempt(o.attempt) then {AttemptKey(KeyOf(o), o.attempt.i)} else {})
      && b.attemptsEnded == a.attemptsEnded
        + (if o.kind == AttemptEnd && ValidAttempt(o.attempt) then {AttemptKey(KeyOf(o), o.attempt.i)} else {})
  {
    match o.kind
    case LogicalStart =>
    case LogicalEnd =>
    case AttemptStart =>
    case AttemptEnd =>
    case _ =>
  }

  lemma ObservedMoves(a: Requests, e: Event)
    requires e.Provider?
    ensures RequestsMove(a, Observed(a, e.observation), e)
  {
    if Readable(e) {
      var o := e.observation.value;
      AttributedMoves(a, o);
      CountedMoves(Attributed(a, o), o);
      CountedAttempts(Attributed(a, o), o);
    }
  }

  lemma RemindedMoves(a: Requests, reason: Option<string>)
    ensures var b := Reminded(a, reason);
      && b == a.(reasons := b.reasons) && (b.reasons != map[] <==> a.reasons != map[] || reason.Some?)
  {
    if reason.Some? {
      assert reason.value in Bump(a.reasons, reason.value);
    }
  }

  lemma StepMoves(a: Activity, e: Event)
    ensures RequestsMove(a.requests, Step(a, e).requests, e)
  {
    match e
    case Provider(_) => ObservedMoves(a.requests, e);
    case CompletionReminder(reason) => RemindedMoves(a.requests, reason);
    case MessageEnd(reminder, _) => RemindedMoves(a.requests, reminder);
    case _ =>
  }

  /** The pass over the events up to the last one, the last one, and what it does. */
  lemma LastMove(events: seq<Event>) returns (before: seq<Event>, a: Requests, e: Event)
    requires events != []
    ensures |before| < |events| && before + [e] == events && a == Fold(START, before).requests
    ensures RequestsMove(a, Fold(START, events).requests, e)
  {
    before, e := events[..|events| - 1], events[|events| - 1];
    a := Fold(START, before).requests;
    assert before + [e] == events;
    FoldOne(START, before, e);
    StepMoves(Fold(START, before), e);
  }

  lemma NamedOn(before: seq<Event>, e: Event, kind: Kind)
    ensures Named(before + [e], kind) == Named(before, kind) + if Is(e, kind) then {RequestOf(e)} else {}
    ensures NamedAttempts(before + [e], kind) ==
      NamedAttempts(before, kind) + if Is(e, kind) && Numbered(e) then {AttemptOf(e)} else {}
  {
  }

  ghost predicate SetsAre(a: Requests, events: seq<Event>) {
    && a.logical == Named(events, LogicalStart) && a.ended == Named(events, LogicalEnd)
    && a.attempts == NamedAttempts(events, AttemptStart) && a.attemptsEnded == NamedAttempts(events, AttemptEnd)
    && (a.seen <==> exists e :: e in events && Readable(e))
    && (a.unknownOutcome <==> exists e :: e in events && UnknownEnd(e))
    && (a.reasons != map[] <==> WasReminded(events))
  }

  lemma SetsOn(a: Requests, b: Requests, before: seq<Event>, e: Event)
    requires SetsAre(a, before) && RequestsMove(a, b, e)
    ensures SetsAre(b, before + [e])
  {
    NamedOn(before, e, LogicalStart);
    NamedOn(before, e, LogicalEnd);
    NamedOn(before, e, AttemptStart);
    NamedOn(before, e, AttemptEnd);
    var after := before + [e];
    assert forall f :: f in after <==> f in before || f == e;
    assert e in after;
  }

  lemma {:induction false} Sets(events: seq<Event>)
    ensures SetsAre(Fold(START, events).requests, events)
    decreases |events|
  {
    if events != [] {
      var before, a, e := LastMove(events);
      Sets(before);
      SetsOn(a, Fold(START, events).requests, before, e);
    }
  }

  // Loss and dispute.

  /** Whose each request is, as the last claim said; without a dispute every claim says so. */
  ghost predicate OwnersAre(a: Requests, events: seq<Event>) {
    && (a.overflow <==> (exists e :: e in events && Loss(e)) || Disputed(events))
    && (forall r :: r in a.owners <==> exists e :: e in events && Claims(e, r))
    && (forall r | r in a.owners :: exists e :: e in events && Claims(e, r) && a.owners[r] == OwnerOf(e.observation.value))
  }

  lemma OwnersAgree(events: seq<Event>, e: Event, f: Event, r: string)
    requires !Disputed(events) && e in events && f in events && Claims(e, r) && Claims(f, r)
    ensures OwnerOf(e.observation.value) == OwnerOf(f.observation.value)
  {
    assert !Disagree(e, f);
    CanonicalIsValue(e.observation.value.root, f.observation.value.root);
    CanonicalIsValue(e.observation.value.actor, f.observation.value.actor);
  }

  lemma OwnersDiffer(e: Event, f: Event)
    requires Readable(e) && Readable(f)
    ensures OwnerOf(e.observation.value) == OwnerOf(f.observation.value) <==> !Disagree(e, f)
  {
    CanonicalIsValue(e.observation.value.root, f.observation.value.root);
    CanonicalIsValue(e.observation.value.actor, f.observation.value.actor);
  }

  /** A new claim disputes an earlier one exactly if it differs from what was known. */
  lemma DisputeOn(a: Requests, before: seq<Event>, e: Event)
    requires OwnersAre(a, before)
    ensures Disputed(before + [e]) <==> Disputed(before) || Contradicts(a, e)
  {
    var after := before + [e];
    if Contradicts(a, e) {
      var r := e.observation.value.request.value;
      var f :| f in before && Claims(f, r) && a.owners[r] == OwnerOf(f.observation.value);
      OwnersDiffer(f, e);
      assert f in after && e in after && Disagree(f, e);
    }
    if Disputed(before) {
      var f, g, r :| f in before && g in before && Claims(f, r) && Claims(g, r) && Disagree(f, g);
      assert f in after && g in after;
    }
    if Disputed(after) && !Disputed(before) {
      var f, g, r :| f in after && g in after && Claims(f, r) && Claims(g, r) && Disagree(f, g);
      SameOrOther(before, e, f, g, r);
      var h := if f in before then f else g;
      OwnersDiffer(f, g);
      OwnersDiffer(g, f);
      var k :| k in before && Claims(k, r) && a.owners[r] == OwnerOf(k.observation.value);
      OwnersAgree(before, h, k, r);
    }
  }

  /** Of two claims that disagree one is the new one and the other is not. */
  lemma SameOrOther(before: seq<Event>, e: Event, f: Event, g: Event, r: string)
    requires !Disputed(before) && Claims(f, r) && Claims(g, r) && Disagree(f, g)
    requires (f in before || f == e) && (g in before || g == e)
    ensures (f in before && g == e) || (g in before && f == e)
  {
    OwnersDiffer(f, g);
  }

  lemma OwnersOn(a: Requests, b: Requests, before: seq<Event>, e: Event)
    requires OwnersAre(a, before) && RequestsMove(a, b, e)
    ensures OwnersAre(b, before + [e])
  {
    var after := before + [e];
    DisputeOn(a, before, e);
    assert forall f :: f in after <==> f in before || f == e;
    assert e in after;
    forall r | r in b.owners
      ensures exists f :: f in after && Claims(f, r) && b.owners[r] == OwnerOf(f.observation.value)
    {
      if Claims(e, r) {
        assert b.owners[r] == OwnerOf(e.observation.value);
      } else {
        var f :| f in before && Claims(f, r) && a.owners[r] == OwnerOf(f.observation.value);
        assert f in after;
      }
    }
    forall r ensures r in b.owners <==> r in a.owners || Claims(e, r) {
    }
  }

  lemma {:induction false} Owners(events: seq<Event>)
    ensures OwnersAre(Fold(START, events).requests, events)
    decreases |events|
  {
    if events != [] {
      var before, a, e := LastMove(events);
      Owners(before);
      OwnersOn(a, Fold(START, events).requests, before, e);
    }
  }

  // Late requests.

  lemma LateOn(before: seq<Event>, e: Event, k: Key)
    ensures Late(before + [e], k) <==>
      Late(before, k) || (Is(e, LogicalStart) && RequestOf(e) == k && k.purpose == Coding
                          && k !in Named(before, LogicalStart) && WasReminded(before))
  {
    var after, n := before + [e], |before|;
    assert after[..n] == before;
    forall i | 0 <= i < n ensures LateAt(after, k, i) <==> LateAt(before, k, i) {
      assert after[..i] == before[..i];
    }
    if Late(after, k) {
      var i :| 0 <= i < |after| && LateAt(after, k, i);
      if i < n {
        assert LateAt(before, k, i);
      }
    }
    if Late(before, k) {
      var i :| 0 <= i < n && LateAt(before, k, i);
      assert LateAt(after, k, i);
    }
    if Is(e, LogicalStart) && RequestOf(e) == k && k.purpose == Coding && k !in Named(before, LogicalStart) && WasReminded(before) {
      assert LateAt(after, k, n);
    }
  }

  lemma LateIsNamed(events: seq<Event>, k: Key)
    requires Late(events, k)
    ensures k in Named(events, LogicalStart)
  {
    var i :| 0 <= i < |events| && LateAt(events, k, i);
    assert events[i] in events;
  }

  /** The event names a coding request for the first time, after a reminder. */
  ghost predicate NewAndLate(before: seq<Event>, e: Event) {
    && Is(e, LogicalStart) && RequestOf(e).purpose == Coding
    && RequestOf(e) !in Named(before, LogicalStart) && WasReminded(before)
  }

  lemma LateRequestsOn(before: seq<Event>, e: Event)
    ensures LateRequests(before + [e]) == LateRequests(before) + (if NewAndLate(before, e) then {RequestOf(e)} else {})
    ensures NewAndLate(before, e) ==> RequestOf(e) !in LateRequests(before)
  {
    NamedOn(before, e, LogicalStart);
    forall k
      ensures k in LateRequests(before + [e]) <==>
        (k in LateRequests(before) || (NewAndLate(before, e) && RequestOf(e) == k))
    {
      LateOn(before, e, k);
      if Late(before, k) {
        LateIsNamed(before, k);
      }
    }
  }

  lemma {:induction false} AfterReminder(events: seq<Event>)
    ensures Fold(START, events).requests.afterReminder == |LateRequests(events)|
    decreases |events|
  {
    if events == [] {
      assert LateRequests(events) == {};
    } else {
      var before, a, e := LastMove(events);
      AfterReminder(before);
      Sets(before);
      LateRequestsOn(before, e);
    }
  }

  // Tool calls.

  lemma StartsOn(before: seq<Event>, e: Event)
    ensures var after, n := before + [e], |before|;
      && AutoStarts(after) == AutoStarts(before) + (if FirstStart(after, n) && Announced(after, n) then {n} else {})
      && OwnStarts(after) == OwnStarts(before) + (if FirstStart(after, n) && !Announced(after, n) then {n} else {})
      && n !in AutoStarts(before) && n !in OwnStarts(before)
  {
    var after, n := before + [e], |before|;
    forall i | 0 <= i < n
      ensures FirstStart(after, i) <==> FirstStart(before, i)
      ensures before[i].ToolStart? ==> (Announced(after, i) <==> Announced(before, i))
    {
      assert forall j | 0 <= j <= i :: after[j] == before[j];
    }
  }

  lemma OwnStartsOfOn(before: seq<Event>, e: Event, name: string)
    ensures var after, n := before + [e], |before|;
      && OwnStartsOf(after, name) ==
        OwnStartsOf(before, name) + (if FirstStart(after, n) && !Announced(after, n) && e.name == name then {n} else {})
      && n !in OwnStartsOf(before, name)
  {
    var after := before + [e];
    StartsOn(before, e);
    forall i ensures i in OwnStartsOf(after, name) <==>
      i in OwnStartsOf(before, name) || (i == |before| && FirstStart(after, i) && !Announced(after, i) && e.name == name)
    {
      if 0 <= i < |before| {
        assert after[i] == before[i];
      }
    }
  }

  ghost predicate CallsAre(c: ToolCalls, events: seq<Event>) {
    && (forall id :: id in c.started <==> id != "" && exists j :: 0 <= j < |events| && StartOf(events, j, id))
    && (forall id :: id in c.autoIds <==> exists j :: 0 <= j < |events| && AnnouncementOf(events, j, id))
    && c.autoRuns == |AutoStarts(events)| && c.topLevel == |OwnStarts(events)|
    && (forall name :: name in c.names <==> OwnStartsOf(events, name) != {})
    && (forall name | name in c.names :: c.names[name] == |OwnStartsOf(events, name)|)
  }

  predicate StartOf(events: seq<Event>, j: nat, id: string)
    requires j < |events|
  {
    events[j].ToolStart? && events[j].callId == Some(id)
  }

  predicate AnnouncementOf(events: seq<Event>, j: nat, id: string)
    requires j < |events|
  {
    events[j].MessageEnd? && id in events[j].verificationCalls
  }

  /** What the pass knows when it comes to a tool call. */
  lemma CallsDecide(c: ToolCalls, before: seq<Event>, e: Event)
    requires CallsAre(c, before) && e.ToolStart?
    ensures FirstStart(before + [e], |before|) <==> !(e.callId.Some? && e.callId.value != "" && e.callId.value in c.started)
    ensures Announced(before + [e], |before|) <==> e.callId.Some? && e.callId.value in c.autoIds
  {
    var after, n := before + [e], |before|;
    assert forall j | 0 <= j < n :: after[j] == before[j];
    if e.callId.Some? {
      var id := e.callId.value;
      if j :| 0 <= j < n && after[j].ToolStart? && after[j].callId == e.callId {
        assert StartOf(before, j, id);
      }
      if j :| 0 <= j < n && StartOf(before, j, id) {
        assert after[j].ToolStart? && after[j].callId == e.callId;
      }
      if j :| 0 <= j < n && after[j].MessageEnd? && id in after[j].verificationCalls {
        assert AnnouncementOf(before, j, id);
      }
      if j :| 0 <= j < n && AnnouncementOf(before, j, id) {
        assert after[j].MessageEnd? && id in after[j].verificationCalls;
      }
    }
  }

  lemma IdsOn(before: seq<Event>, e: Event, id: string)
    ensures (exists j :: 0 <= j < |before| + 1 && StartOf(before + [e], j, id)) <==>
      (exists j :: 0 <= j < |before| && StartOf(before, j, id)) || (e.ToolStart? && e.callId == Some(id))
    ensures (exists j :: 0 <= j < |before| + 1 && AnnouncementOf(before + [e], j, id)) <==>
      (exists j :: 0 <= j < |before| && AnnouncementOf(before, j, id)) || (e.MessageEnd? && id in e.verificationCalls)
  {
    var after, n := before + [e], |before|;
    forall j | 0 <= j < n
      ensures StartOf(after, j, id) <==> StartOf(before, j, id)
      ensures AnnouncementOf(after, j, id) <==> AnnouncementOf(before, j, id)
    {
    }
    if e.ToolStart? && e.callId == Some(id) {
      assert StartOf(after, n, id);
    }
    if e.MessageEnd? && id in e.verificationCalls {
      assert AnnouncementOf(after, n, id);
    }
  }

  /** What one event does to what is known of tool calls. */
  ghost predicate CallsMove(c: ToolCalls, d: ToolCalls, e: Event) {
    var known := e.ToolStart? && Identifies(e.callId) && e.callId.value in c.started;
    var own := e.ToolStart? && !known && !(e.callId.Some? && e.callId.value in c.autoIds);
    && (forall id :: id in d.started <==> id in c.started || (e.ToolStart? && e.callId == Some(id) && id != ""))
    && (forall id :: id in d.autoIds <==> id in c.autoIds || (e.MessageEnd? && id in e.verificationCalls))
    && d.autoRuns == c.autoRuns + (if e.ToolStart? && !known && !own then 1 else 0)
    && d.topLevel == c.topLevel + (if own then 1 else 0)
    && d.names == if own then Bump(c.names, e.name) else c.names
  }

  lemma StartedMoves(c: ToolCalls, e: Event)
    requires e.ToolStart?
    ensures CallsMove(c, Started(c, e.callId, e.name), e)
  {
  }

  lemma StepMovesCalls(a: Activity, e: Event)
    ensures CallsMove(a.calls, Step(a, e).calls, e)
  {
    if e.ToolStart? {
      StartedMoves(a.calls, e);
    }
  }

  lemma CallIdsOn(c: ToolCalls, d: ToolCalls, before: seq<Event>, e: Event, id: string)
    requires CallsAre(c, before) && CallsMove(c, d, e)
    ensures id in d.started <==> id != "" && exists j :: 0 <= j < |before| + 1 && StartOf(before + [e], j, id)
    ensures id in d.autoIds <==> exists j :: 0 <= j < |before| + 1 && AnnouncementOf(before + [e], j, id)
  {
    IdsOn(before, e, id);
  }

  lemma CallNamesOn(c: ToolCalls, d: ToolCalls, before: seq<Event>, e: Event, name: string)
    requires CallsAre(c, before) && CallsMove(c, d, e)
    ensures name in d.names <==> OwnStartsOf(before + [e], name) != {}
    ensures name in d.names ==> d.names[name] == |OwnStartsOf(before + [e], name)|
  {
    OwnStartsOfOn(before, e, name);
    if e.ToolStart? {
      CallsDecide(c, before, e);
    }
  }

  lemma CallsOn(c: ToolCalls, d: ToolCalls, before: seq<Event>, e: Event)
    requires CallsAre(c, before) && CallsMove(c, d, e)
    ensures CallsAre(d, before + [e])
  {
    var after := before + [e];
    forall id
      ensures id in d.started <==> id != "" && exists j :: 0 <= j < |after| && StartOf(after, j, id)
      ensures id in d.autoIds <==> exists j :: 0 <= j < |after| && AnnouncementOf(after, j, id)
    {
      CallIdsOn(c, d, before, e, id);
    }
    forall name
      ensures name in d.names <==> OwnStartsOf(after, name) != {}
      ensures name in d.names ==> d.names[name] == |OwnStartsOf(after, name)|
    {
      CallNamesOn(c, d, before, e, name);
    }
    StartsOn(before, e);
    if e.ToolStart? {
      CallsDecide(c, before, e);
    }
  }

  lemma {:induction false} Calls(events: seq<Event>)
    ensures CallsAre(Fold(START, events).calls, events)
    decreases |events|
  {
    if events == [] {
      assert AutoStarts(events) == {} && OwnStarts(events) == {};
    } else {
      var before, e := events[..|events| - 1], events[|events| - 1];
      assert before + [e] == events;
      FoldOne(START, before, e);
      Calls(before);
      StepMovesCalls(Fold(START, before), e);
      CallsOn(Fold(START, before).calls, Fold(START, events).calls, before, e);
    }
  }

  // The report.

  /** What is known of requests and attempts, and when it is. */
  ghost predicate CountsRequests(c: Counts, events: seq<Event>) {
    var logical, attempts := Named(events, LogicalStart), NamedAttempts(events, AttemptStart);
    if Sound(events) then
      && c.logicalRequests == Some(|set k | k in logical && k.purpose == Coding|)
      && c.providerAttempts == Some(|attempts|)
      && c.codingAttempts == Some(|set k | k in attempts && k.key.purpose == Coding|)
      && c.prewarmAttempts == Some(|set k | k in attempts && k.key.purpose == Prewarm|)
      && c.afterReminder == Some(|LateRequests(events)|)
      && (c.complete <==> AllEnded(events))
    else
      && c.logicalRequests.None? && c.providerAttempts.None? && c.codingAttempts.None?
      && c.prewarmAttempts.None? && c.afterReminder.None? && !c.complete
  }

  /** Every first start of an identified call counts once, and every unidentified one. */
  ghost predicate CountsCalls(c: Counts, events: seq<Event>) {
    && c.autoRuns == |AutoStarts(events)| && c.toolCalls == |OwnStarts(events)|
    && (forall name :: name in c.tools <==> OwnStartsOf(events, name) != {})
    && (forall name | name in c.tools :: c.tools[name] == |OwnStartsOf(events, name)|)
  }

  lemma RequestsReported(events: seq<Event>)
    ensures CountsRequests(Report(Fold(START, events)), events)
  {
    Sets(events);
    Owners(events);
    AfterReminder(events);
  }

  lemma CallsReported(events: seq<Event>)
    ensures CountsCalls(Report(Fold(START, events)), events)
  {
    Calls(events);
  }

  /** One pass over the stream, as the source writes it. */
  method Count(events: seq<Event>) returns (counts: Counts)
    ensures counts == Report(Fold(START, events))
    ensures CountsRequests(counts, events) && CountsCalls(counts, events)
  {
    var logical: set<Key>, ended: set<Key> := {}, {};
    var attempts: set<AttemptKey>, attemptsEnded: set<AttemptKey> := {}, {};
    var owners: map<string, Owner> := map[];
    var seen, overflow, unknownOutcome := false, false, false;
    var reasons: map<string, nat>, afterReminder: nat := map[], 0;
    var autoIds: set<string>, startedTools: set<string> := {}, {};
    var autoRuns: nat, topLevel: nat, names: map<string, nat> := 0, 0, map[];
    for n := 0 to |events|
      invariant Fold(START, events[..n]) == Activity(
        Requests(logical, ended, attempts, attemptsEnded, owners, seen, overflow, unknownOutcome,
                 reasons, afterReminder),
        ToolCalls(autoIds, startedTools, autoRuns, topLevel, names))
    {
      var e := events[n];
      assert events[..n + 1] == events[..n] + [e];
      FoldOne(START, events[..n], e);
      match e {
        case Provider(observation) =>
          if observation.None? || !Identified(observation.value) {
            overflow := true;
            continue;
          }
          var o := observation.value;
          seen := true;
          if o.root != Null {
            if o.request.value in owners && owners[o.request.value] != OwnerOf(o) {
              overflow := true;
            }
            owners := owners[o.request.value := OwnerOf(o)];
          }
          var key := KeyOf(o);
          if o.kind in {AttemptEnd, LogicalEnd} && o.status.OtherStatus? {
            unknownOutcome := true;
          }
          if o.kind == LogicalStart {
            if key !in logical && reasons != map[] && key.purpose == Coding {
              afterReminder := afterReminder + 1;
            }
            logical := logical + {key};
          } else if o.kind == LogicalEnd {
            ended := ended + {key};
          } else if o.kind in {AttemptStart, AttemptEnd} {
            if !ValidAttempt(o.attempt) {
              overflow := true;
            } else if o.kind == AttemptStart {
              attempts := attempts + {AttemptKey(key, o.attempt.i)};
            } else {
              attemptsEnded := attemptsEnded + {AttemptKey(key, o.attempt.i)};
            }
          } else if o.kind != CacheDrop {
            overflow := true;
          }
        case CompletionReminder(reason) =>
          if reason.Some? {
            reasons := Bump(reasons, reason.value);
          }
        case MessageEnd(reminder, ids) =>
          if reminder.Some? {
            reasons := Bump(reasons, reminder.value);
          }
          autoIds := autoIds + ids;
        case ToolStart(callId, name) =>
          if Identifies(callId) && callId.value in startedTools {
            continue;
          }
          if Identifies(callId) {
            startedTools := startedTools + {callId.value};
          }
          if callId.Some? && callId.value in autoIds {
            autoRuns := autoRuns + 1;
          } else {
            topLevel := topLevel + 1;
            names := Bump(names, name);
          }
        case Other =>
      }
    }
    assert events[..|events|] == events;
    counts := Report(Fold(START, events));
    RequestsReported(events);
    CallsReported(events);
  }
}
