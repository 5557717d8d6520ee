/** What the reported totals say of the receipts in the stream (scripts/bench/bench.py, `parse_stream`). */
module UsageFacts {
  // Nothing here is said by way of the ledger or the tally: totals are sums of the numbers in the
  // receipts themselves, one receipt for each attempt, and conditions are conditions on the events.

  import opened ActivityFacts
  import opened ProviderActivity
  import opened SetSums
  import opened UsageAccounting
  import opened Wrappers

  // Receipts.

  /** The observation ends a numbered attempt of a request; its version is not looked at. */
  predicate Receives(e: Event) {
    && e.Provider? && e.observation.Some?
    && e.observation.value.purpose.Some? && e.observation.value.request.Some?
    && e.observation.value.kind == AttemptEnd
    && e.observation.value.attempt.Int? && e.observation.value.attempt.i >= 1
  }

  predicate ReceivedFor(e: Event, id: AttemptKey) {
    && Receives(e)
    && e.observation.value.purpose == Some(id.key.purpose) && e.observation.value.request == Some(id.key.request)
    && e.observation.value.attempt.i == id.attempt
  }

  predicate Nonnegative(j: Json) { j.Int? && j.i >= 0 }

  /** The receipt calls itself complete and states all four numbers. */
  predicate Stated(o: Observation) {
    && o.usageComplete == Bool(true) && o.usage.UsageObject?
    && Nonnegative(o.usage.input) && Nonnegative(o.usage.cacheRead) && Nonnegative(o.usage.cacheWrite) && Nonnegative(o.usage.output)
  }

  predicate Certain(o: Observation) { Stated(o) && o.status in {Completed, Failed, Cancelled} }

  predicate SameUsage(u: Usage, v: Usage) {
    if u.UsageObject? && v.UsageObject? then
      && SameValue(u.input, v.input) && SameValue(u.cacheRead, v.cacheRead)
      && SameValue(u.cacheWrite, v.cacheWrite) && SameValue(u.output, v.output) && u.other == v.other
    else
      u.NotObject? && v.NotObject? && SameValue(u.value, v.value)
  }

  predicate SameStatus(s: Status, t: Status) {
    if s.OtherStatus? && t.OtherStatus? then SameValue(s.value, t.value) else s == t
  }

  predicate SameReceipt(o: Observation, p: Observation) {
    && SameStatus(o.status, p.status) && SameUsage(o.usage, p.usage)
    && SameValue(o.rawUsage, p.rawUsage) && SameValue(o.usageComplete, p.usageComplete)
    && SameValue(o.root, p.root) && SameValue(o.actor, p.actor)
    && SameValue(o.model, p.model) && SameValue(o.tier, p.tier)
  }

  ghost predicate OneReceipt(events: seq<Event>, id: AttemptKey) {
    forall e, f | e in events && f in events && ReceivedFor(e, id) && ReceivedFor(f, id) ::
      SameReceipt(e.observation.value, f.observation.value)
  }

  /** The attempt has receipts, all of them certain, and they all say the same. */
  ghost predicate Trusted(events: seq<Event>, id: AttemptKey) {
    && (exists e :: e in events && ReceivedFor(e, id))
    && (forall e | e in events && ReceivedFor(e, id) :: Certain(e.observation.value))
    && OneReceipt(events, id)
  }

  /** Nothing is lost, everything has ended, and every receipt states its numbers, without dispute. */
  ghost predicate Settled(events: seq<Event>) {
    && Sound(events) && AllEnded(events)
    && (exists e :: e in events && Receives(e))
    && (forall e | e in events && Receives(e) :: Stated(e.observation.value))
    && forall id :: OneReceipt(events, id)
  }

  // Sums over one receipt for each attempt.

  ghost predicate IsUse(events: seq<Event>, uses: map<AttemptKey, Observation>, id: AttemptKey)
    requires id in uses
  {
    exists e :: e in events && ReceivedFor(e, id) && e.observation.value == uses[id]
  }

  /** One receipt for each attempt that has only trusted ones. */
  ghost predicate AreUses(events: seq<Event>, uses: map<AttemptKey, Observation>) {
    && (forall id :: id in uses <==> Trusted(events, id))
    && forall id | id in uses :: IsUse(events, uses, id)
  }

  /** Input tokens are those read afresh, read from the cache and written to the cache. */
  ghost function InputIn(uses: map<AttemptKey, Observation>): AttemptKey -> nat {
    id => if id in uses && Stated(uses[id])
          then uses[id].usage.input.i + uses[id].usage.cacheRead.i + uses[id].usage.cacheWrite.i else 0
  }

  ghost function CachedIn(uses: map<AttemptKey, Observation>): AttemptKey -> nat {
    id => if id in uses && Stated(uses[id]) then uses[id].usage.cacheRead.i else 0
  }

  ghost function OutputIn(uses: map<AttemptKey, Observation>): AttemptKey -> nat {
    id => if id in uses && Stated(uses[id]) then uses[id].usage.output.i else 0
  }

  ghost function WrittenIn(uses: map<AttemptKey, Observation>): AttemptKey -> nat {
    id => if id in uses && Stated(uses[id]) then uses[id].usage.cacheWrite.i else 0
  }

  ghost predicate AddsUp(totals: map<Field, nat>, uses: map<AttemptKey, Observation>) {
    && totals.Keys == {Input, Cached, Output, CacheWrite}
    && totals[Input] == SumOver(uses.Keys, InputIn(uses))
    && totals[Cached] == SumOver(uses.Keys, CachedIn(uses))
    && totals[Output] == SumOver(uses.Keys, OutputIn(uses))
    && totals[CacheWrite] == SumOver(uses.Keys, WrittenIn(uses))
  }

  // The ledger says the same.

  lemma ReceivesIsReceipt(e: Event, id: AttemptKey)
    ensures Receives(e) <==> IsReceipt(e)
    ensures ReceivedFor(e, id) <==> IsReceipt(e) && IdOf(e) == id
  {
  }

  lemma {:induction false} ReceiptsAreReceived(events: seq<Event>, id: AttemptKey, r: Receipt)
    ensures r in ReceiptsFor(events, id) <==> exists e :: e in events && ReceivedFor(e, id) && ReceiptOf(e) == r
    decreases |events|
  {
    if events != [] {
      var before, e := events[..|events| - 1], events[|events| - 1];
      ReceiptsAreReceived(before, id, r);
      ReceivesIsReceipt(e, id);
      assert forall f :: f in events <==> f in before || f == e;
      assert e in events;
    }
  }

  lemma StatedIsWhole(e: Event)
    requires IsReceipt(e)
    ensures Stated(e.observation.value) <==> Whole(ReceiptOf(e))
    ensures Certain(e.observation.value) <==> Full(ReceiptOf(e))
  {
  }

  lemma UsageShapes(u: Usage, v: Usage)
    ensures SameUsage(u, v) <==>
      if u.UsageObject? && v.UsageObject? then
        && Canonical(u.input) == Canonical(v.input) && Canonical(u.cacheRead) == Canonical(v.cacheRead)
        && Canonical(u.cacheWrite) == Canonical(v.cacheWrite) && Canonical(u.output) == Canonical(v.output)
        && u.other == v.other
      else u.NotObject? && v.NotObject? && Canonical(u.value) == Canonical(v.value)
  {
    if u.UsageObject? && v.UsageObject? {
      CanonicalIsValue(u.input, v.input);
      CanonicalIsValue(u.cacheRead, v.cacheRead);
      CanonicalIsValue(u.cacheWrite, v.cacheWrite);
      CanonicalIsValue(u.output, v.output);
    } else if u.NotObject? && v.NotObject? {
      CanonicalIsValue(u.value, v.value);
    }
  }

  lemma SameIsShape(e: Event, f: Event)
    requires IsReceipt(e) && IsReceipt(f)
    ensures SameReceipt(e.observation.value, f.observation.value) <==> Shape(ReceiptOf(e)) == Shape(ReceiptOf(f))
  {
    var o, p := e.observation.value, f.observation.value;
    UsageShapes(o.usage, p.usage);
    if o.status.OtherStatus? && p.status.OtherStatus? {
      CanonicalIsValue(o.status.value, p.status.value);
    }
    CanonicalIsValue(o.rawUsage, p.rawUsage);
    CanonicalIsValue(o.usageComplete, p.usageComplete);
    CanonicalIsValue(o.root, p.root);
    CanonicalIsValue(o.actor, p.actor);
    CanonicalIsValue(o.model, p.model);
    CanonicalIsValue(o.tier, p.tier);
  }

  ghost predicate AllAlike(rs: seq<Receipt>) { forall r, q | r in rs && q in rs :: Shape(r) == Shape(q) }

  lemma OneIsAlike(events: seq<Event>, id: AttemptKey)
    ensures OneReceipt(events, id) <==> AllAlike(ReceiptsFor(events, id))
  {
    var rs := ReceiptsFor(events, id);
    if OneReceipt(events, id) {
      forall r, q | r in rs && q in rs ensures Shape(r) == Shape(q) {
        ReceiptsAreReceived(events, id, r);
        ReceiptsAreReceived(events, id, q);
        var e :| e in events && ReceivedFor(e, id) && ReceiptOf(e) == r;
        var f :| f in events && ReceivedFor(f, id) && ReceiptOf(f) == q;
        SameIsShape(e, f);
      }
    }
    if AllAlike(rs) {
      forall e, f | e in events && f in events && ReceivedFor(e, id) && ReceivedFor(f, id)
        ensures SameReceipt(e.observation.value, f.observation.value)
      {
        ReceiptsAreReceived(events, id, ReceiptOf(e));
        ReceiptsAreReceived(events, id, ReceiptOf(f));
        SameIsShape(e, f);
      }
    }
  }

  lemma TrustedIsUndisputed(events: seq<Event>, id: AttemptKey)
    ensures Trusted(events, id) <==> Undisputed(events, id)
  {
    var rs := ReceiptsFor(events, id);
    OneIsAlike(events, id);
    forall e | e in events && ReceivedFor(e, id)
      ensures ReceiptOf(e) in rs && (Certain(e.observation.value) <==> Full(ReceiptOf(e)))
    {
      ReceiptsAreReceived(events, id, ReceiptOf(e));
      StatedIsWhole(e);
    }
    forall r | r in rs ensures exists e :: e in events && ReceivedFor(e, id) && ReceiptOf(e) == r {
      ReceiptsAreReceived(events, id, r);
    }
    assert rs != [] ==> rs[0] in rs;
  }

  lemma SettledForIsAgreeing(events: seq<Event>, id: AttemptKey)
    ensures Agreeing(ReceiptsFor(events, id)) <==>
      OneReceipt(events, id) && forall e | e in events && ReceivedFor(e, id) :: Stated(e.observation.value)
  {
    var rs := ReceiptsFor(events, id);
    OneIsAlike(events, id);
    forall e | e in events && ReceivedFor(e, id)
      ensures ReceiptOf(e) in rs && (Stated(e.observation.value) <==> Whole(ReceiptOf(e)))
    {
      ReceiptsAreReceived(events, id, ReceiptOf(e));
      StatedIsWhole(e);
    }
    forall r | r in rs ensures exists e :: e in events && ReceivedFor(e, id) && ReceiptOf(e) == r {
      ReceiptsAreReceived(events, id, r);
    }
    assert rs != [] ==> rs[0] in rs;
  }

  lemma SettledIsConsistent(events: seq<Event>)
    ensures Consistent(events) <==>
      (forall e | e in events && Receives(e) :: Stated(e.observation.value)) && forall id :: OneReceipt(events, id)
  {
    forall id ensures Agreeing(ReceiptsFor(events, id)) <==>
      OneReceipt(events, id) && forall e | e in events && ReceivedFor(e, id) :: Stated(e.observation.value)
    {
      SettledForIsAgreeing(events, id);
    }
    if Consistent(events) {
      forall e | e in events && Receives(e) ensures Stated(e.observation.value) {
        ReceivesIsReceipt(e, IdOf(e));
        assert Agreeing(ReceiptsFor(events, IdOf(e)));
      }
      forall id ensures OneReceipt(events, id) {
        assert Agreeing(ReceiptsFor(events, id));
      }
    }
  }

  lemma SomeReceipt(events: seq<Event>)
    ensures Notes(events).receipts != map[] <==> exists e :: e in events && Receives(e)
  {
    NotesFacts(events);
    if e :| e in events && Receives(e) {
      ReceivesIsReceipt(e, IdOf(e));
      ReceiptsAreReceived(events, IdOf(e), ReceiptOf(e));
      assert LedgerOf(Notes(events), IdOf(e), ReceiptsFor(events, IdOf(e)));
      assert IdOf(e) in Notes(events).receipts;
    }
    if Notes(events).receipts != map[] {
      var id :| id in Notes(events).receipts;
      assert LedgerOf(Notes(events), id, ReceiptsFor(events, id));
      ReceiptsAreReceived(events, id, ReceiptsFor(events, id)[0]);
    }
  }

  lemma SettledIsAccountable(events: seq<Event>)
    ensures Settled(events) <==> Accountable(events)
  {
    RequestsReported(events);
    SomeReceipt(events);
    SettledIsConsistent(events);
  }

  // What is charged.

  /** More is said to be cached than was read in all; then neither number counts. */
  predicate Contradictory(a: Amounts) { a.input.Int? && a.cached.Int? && a.cached.i > a.input.i }

  function Charges(charges: seq<Amounts>, f: Field): int {
    if charges == [] then 0
    else
      var a := charges[|charges| - 1];
      var j := match f case Input => a.input case Cached => a.cached case Output => a.output case CacheWrite => a.cacheWrite;
      Charges(charges[..|charges| - 1], f) + (if j.Int? then j.i else 0)
  }

  lemma AdjustedIs(a: Amounts)
    ensures Natural(Get(Adjusted(a), Input)) <==> Nonnegative(a.input) && !Contradictory(a)
    ensures Natural(Get(Adjusted(a), Cached)) <==> Nonnegative(a.cached) && !Contradictory(a)
    ensures Natural(Get(Adjusted(a), Output)) <==> Nonnegative(a.output)
    ensures Natural(Get(Adjusted(a), CacheWrite)) <==> Nonnegative(a.cacheWrite)
    ensures Natural(Get(Adjusted(a), Input)) ==> Get(Adjusted(a), Input) == a.input
    ensures Natural(Get(Adjusted(a), Cached)) ==> Get(Adjusted(a), Cached) == a.cached
    ensures Get(Adjusted(a), Output) == a.output && Get(Adjusted(a), CacheWrite) == a.cacheWrite
  {
  }

  lemma {:induction false} SumIsCharges(charges: seq<Amounts>, f: Field)
    requires forall a | a in charges :: Natural(Get(Adjusted(a), f))
    ensures Sum(charges, f) == Charges(charges, f)
  {
    if charges != [] {
      var last := charges[|charges| - 1];
      assert last in charges;
      AdjustedIs(last);
      SumIsCharges(charges[..|charges| - 1], f);
    }
  }

  /** A field has a total exactly if there is a charge and every charge of it counts; it is their sum then. */
  lemma TallyIs(totals: map<Field, nat>, missing: set<Field>, charges: seq<Amounts>)
    requires Exact(totals, missing, charges)
    ensures Input in totals <==> charges != [] && forall a | a in charges :: Nonnegative(a.input) && !Contradictory(a)
    ensures Cached in totals <==> charges != [] && forall a | a in charges :: Nonnegative(a.cached) && !Contradictory(a)
    ensures Output in totals <==> charges != [] && forall a | a in charges :: Nonnegative(a.output)
    ensures CacheWrite in totals <==> charges != [] && forall a | a in charges :: Nonnegative(a.cacheWrite)
    ensures forall f | f in totals :: totals[f] == Charges(charges, f)
  {
    forall a | a in charges
      ensures Natural(Get(Adjusted(a), Input)) <==> Nonnegative(a.input) && !Contradictory(a)
      ensures Natural(Get(Adjusted(a), Cached)) <==> Nonnegative(a.cached) && !Contradictory(a)
      ensures Natural(Get(Adjusted(a), Output)) <==> Nonnegative(a.output)
      ensures Natural(Get(Adjusted(a), CacheWrite)) <==> Nonnegative(a.cacheWrite)
    {
      AdjustedIs(a);
    }
    assert forall f: Field :: f in totals <==> Known(charges, f);
    forall f | f in totals ensures totals[f] == Charges(charges, f) {
      assert Known(charges, f);
      SumIsCharges(charges, f);
    }
  }

  // The sums.

  ghost function Sure(events: seq<Event>): set<AttemptKey> { Notes(events).complete - Notes(events).uncertain }

  /** The observation is a receipt of the attempt with the usage that counts. */
  ghost predicate LastUse(events: seq<Event>, id: AttemptKey, o: Observation) {
    && (exists e :: e in events && ReceivedFor(e, id) && e.observation.value == o)
    && id in Notes(events).receipts && o.usage == Notes(events).receipts[id].usage
  }

  lemma LastReceipt(events: seq<Event>, id: AttemptKey)
    requires Undisputed(events, id)
    ensures exists o: Observation :: LastUse(events, id, o)
  {
    NotesFacts(events);
    var rs := ReceiptsFor(events, id);
    assert LedgerOf(Notes(events), id, rs);
    ReceiptsAreReceived(events, id, rs[|rs| - 1]);
    var e :| e in events && ReceivedFor(e, id) && ReceiptOf(e) == rs[|rs| - 1];
    assert LastUse(events, id, e.observation.value);
  }

  lemma SureHasUse(events: seq<Event>, id: AttemptKey)
    ensures id in Sure(events) <==> Trusted(events, id)
    ensures id in Sure(events) ==> exists o: Observation :: LastUse(events, id, o)
  {
    SureIsUndisputed(events);
    TrustedIsUndisputed(events, id);
    if id in Sure(events) {
      LastReceipt(events, id);
    }
  }

  lemma LastUseStates(events: seq<Event>, id: AttemptKey, o: Observation)
    requires Trusted(events, id) && LastUse(events, id, o)
    ensures Stated(o)
  {
    var e :| e in events && ReceivedFor(e, id) && e.observation.value == o;
    assert Certain(e.observation.value);
  }

  /** Each attempt has the usage that the ledger keeps for it. */
  ghost predicate Kept(uses: map<AttemptKey, Observation>, receipts: map<AttemptKey, Receipt>) {
    forall id | id in uses :: id in receipts && Stated(uses[id]) && uses[id].usage == receipts[id].usage
  }

  ghost function UseOf(events: seq<Event>, id: AttemptKey): (o: Observation)
    requires exists o: Observation :: LastUse(events, id, o)
    ensures LastUse(events, id, o)
  {
    var o: Observation :| LastUse(events, id, o);
    o
  }

  lemma SomeUses(events: seq<Event>) returns (uses: map<AttemptKey, Observation>)
    ensures AreUses(events, uses) && uses.Keys == Sure(events) && Kept(uses, Notes(events).receipts)
  {
    var sure := Sure(events);
    forall id
      ensures id in sure <==> Trusted(events, id)
      ensures id in sure ==> exists o: Observation :: LastUse(events, id, o)
    {
      SureHasUse(events, id);
    }
    uses := map id | id in sure :: UseOf(events, id);
    UsesAreUses(events, uses);
  }

  lemma UsesAreUses(events: seq<Event>, uses: map<AttemptKey, Observation>)
    requires forall id :: id in uses <==> Trusted(events, id)
    requires forall id | id in uses :: LastUse(events, id, uses[id])
    ensures AreUses(events, uses) && Kept(uses, Notes(events).receipts)
  {
    forall id | id in uses
      ensures IsUse(events, uses, id) && Stated(uses[id])
      ensures id in Notes(events).receipts && uses[id].usage == Notes(events).receipts[id].usage
    {
      LastUseStates(events, id, uses[id]);
    }
  }

  lemma InputsAgree(uses: map<AttemptKey, Observation>, receipts: map<AttemptKey, Receipt>)
    requires Kept(uses, receipts)
    ensures SumOver(uses.Keys, InputIn(uses)) == SumOver(uses.Keys, AmountOf(receipts, Input))
  {
    SumAgree(uses.Keys, InputIn(uses), AmountOf(receipts, Input));
  }

  lemma CachedAgree(uses: map<AttemptKey, Observation>, receipts: map<AttemptKey, Receipt>)
    requires Kept(uses, receipts)
    ensures SumOver(uses.Keys, CachedIn(uses)) == SumOver(uses.Keys, AmountOf(receipts, Cached))
  {
    SumAgree(uses.Keys, CachedIn(uses), AmountOf(receipts, Cached));
  }

  lemma OutputsAgree(uses: map<AttemptKey, Observation>, receipts: map<AttemptKey, Receipt>)
    requires Kept(uses, receipts)
    ensures SumOver(uses.Keys, OutputIn(uses)) == SumOver(uses.Keys, AmountOf(receipts, Output))
  {
    SumAgree(uses.Keys, OutputIn(uses), AmountOf(receipts, Output));
  }

  lemma WrittenAgree(uses: map<AttemptKey, Observation>, receipts: map<AttemptKey, Receipt>)
    requires Kept(uses, receipts)
    ensures SumOver(uses.Keys, WrittenIn(uses)) == SumOver(uses.Keys, AmountOf(receipts, CacheWrite))
  {
    SumAgree(uses.Keys, WrittenIn(uses), AmountOf(receipts, CacheWrite));
  }

  lemma TotalsAddUp(totals: map<Field, nat>, uses: map<AttemptKey, Observation>, receipts: map<AttemptKey, Receipt>)
    requires TotalsOf(totals, uses.Keys, receipts) && Kept(uses, receipts)
    ensures AddsUp(totals, uses)
  {
    forall f: Field ensures f in totals && f in {Input, Cached, Output, CacheWrite} {
      match f case Input => case Cached => case Output => case CacheWrite =>
    }
    InputsAgree(uses, receipts);
    CachedAgree(uses, receipts);
    OutputsAgree(uses, receipts);
    WrittenAgree(uses, receipts);
  }

  /** What is known of all attempts is everything. */
  lemma KnownIsAll(events: seq<Event>, totals: map<Field, nat>, known: Option<map<Field, nat>>,
                   uses: map<AttemptKey, Observation>)
    requires Accountable(events) && LowerBound(events, known)
    requires TotalsOf(totals, Notes(events).receipts.Keys, Notes(events).receipts)
    requires uses.Keys == Sure(events) && Kept(uses, Notes(events).receipts)
    ensures uses.Keys == NamedAttempts(events, AttemptStart)
    ensures AddsUp(totals, uses) && known == Some(totals) && totals != map[]
  {
    AccountableAttempts(events);
    AccountableStarts(events);
    TotalsAddUp(totals, uses, Notes(events).receipts);
    TotalsAddUp(known.value, uses, Notes(events).receipts);
    SameTotals(totals, known.value, uses);
  }

  lemma AccountableStarts(events: seq<Event>)
    ensures Fold(START, events).requests.attempts == NamedAttempts(events, AttemptStart)
  {
    Sets(events);
  }

  lemma SameTotals(t: map<Field, nat>, u: map<Field, nat>, uses: map<AttemptKey, Observation>)
    requires AddsUp(t, uses) && AddsUp(u, uses)
    ensures t == u && t != map[]
  {
    assert Input in t;
    forall f | f in t ensures f in u && t[f] == u[f] {
    }
  }

  /** The attempts in all, and whether they have all come to their end. */
  method Attempts(events: seq<Event>) returns (complete: bool, attempts: Option<nat>)
    ensures complete == CompleteMetrics(Fold(START, events).requests)
    ensures attempts.Some? <==> Sound(events)
    ensures attempts.Some? ==> attempts.value == |NamedAttempts(events, AttemptStart)|
  {
    var counts := Count(events);
    return counts.complete, counts.providerAttempts;
  }

  lemma KnownAddsUp(events: seq<Event>, known: Option<map<Field, nat>>, uses: map<AttemptKey, Observation>)
    requires LowerBound(events, known) && uses.Keys == Sure(events) && Kept(uses, Notes(events).receipts)
    ensures known.Some? <==> uses.Keys != {}
    ensures known.Some? ==> AddsUp(known.value, uses)
  {
    if known.Some? {
      TotalsAddUp(known.value, uses, Notes(events).receipts);
    }
  }

  /** The totals, and what is known of all attempts, as far as the receipts account for the stream. */
  method Totals(events: seq<Event>, l: Ledger, complete: bool, malformed: bool)
    returns (totals: map<Field, nat>, available: bool, known: Option<map<Field, nat>>,
             ghost uses: map<AttemptKey, Observation>)
    requires l == Notes(events) && complete == CompleteMetrics(Fold(START, events).requests)
    ensures AreUses(events, uses) && uses.Keys == Sure(events)
    ensures available <==> Settled(events) && !malformed
    ensures available ==> uses.Keys == NamedAttempts(events, AttemptStart)
    ensures if available then AddsUp(totals, uses) && known == Some(totals) && totals != map[] else totals == map[]
    ensures known.Some? <==> uses.Keys != {}
    ensures known.Some? ==> AddsUp(known.value, uses)
  {
    known := KnownUsage(events, l);
    totals, available := TallyReceipts(events, l, complete, malformed);
    uses := SomeUses(events);
    KnownAddsUp(events, known, uses);
    SettledIsAccountable(events);
    if available {
      KnownIsAll(events, totals, known, uses);
    }
  }

  /**
   The observed part of `parse_stream`. `malformed`: some record of the stream was cut short;
   `uses` holds one receipt for each attempt that has only trusted ones.

   Totals are reported exactly for settled streams that are not malformed, and then for every
   field; each is the sum over the distinct attempts of the run, each counted once, every attempt
   has a trusted receipt, and what is known is everything. In any other case no field is reported,
   and what is known are the sums over the attempts with trusted receipts.
  */
  method ObservedUsage(events: seq<Event>, malformed: bool)
    returns (report: UsageReport, ghost uses: map<AttemptKey, Observation>)
    ensures AreUses(events, uses)
    ensures report.totals != map[] <==> Settled(events) && !malformed
    ensures report.available <==> report.totals != map[]
    ensures report.totals != map[] ==> uses.Keys == NamedAttempts(events, AttemptStart)
    ensures report.totals != map[] ==> AddsUp(report.totals, uses) && report.known == Some(report.totals)
    ensures report.known.Some? <==> uses.Keys != {} && !malformed
    ensures report.known.Some? ==> AddsUp(report.known.value, uses)
    ensures report.completeAttempts == |uses.Keys|
    ensures report.unknownAttempts.Some? <==> Sound(events) && !malformed
    ensures report.unknownAttempts.Some? ==>
      report.unknownAttempts.value == |NamedAttempts(events, AttemptStart)| - |uses.Keys|
  {
    var complete, attempts := Attempts(events);
    var l := BuildLedger(events);
    var totals, available, known, used := Totals(events, l, complete, malformed);
    var sure := |l.complete - l.uncertain|;
    var unknown := match attempts case Some(n) => Some(n - sure) case None => None;
    if malformed {
      known, unknown := None, None;
    }
    uses := used;
    report := UsageReport(totals, available, known, sure, unknown);
  }
}
