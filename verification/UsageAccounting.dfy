/**
 Token totals of one observed DaVinci run (scripts/bench/bench.py, `parse_stream` for a stream
 with provider observations). A total is exact or it is unknown; there is no estimate between.
*/
module UsageAccounting {
  import opened ProviderActivity
  import opened SetSums
  import opened Wrappers

  datatype Field = Input | Cached | Output | CacheWrite

  /** One charge: a value for each field, possibly not a token count. */
  datatype Amounts = Amounts(input: Json, cached: Json, output: Json, cacheWrite: Json)

  const UNKNOWN := Amounts(Null, Null, Null, Null)

  function Get(a: Amounts, f: Field): Json {
    match f
    case Input => a.input
    case Cached => a.cached
    case Output => a.output
    case CacheWrite => a.cacheWrite
  }

  /** A token count is exactly an integer; True and 1.0 are not. */
  predicate Natural(j: Json) { j.Int? && j.i >= 0 }

  function Tokens(j: Json): nat { if Natural(j) then j.i else 0 }

  /** `davinci_usage`: the input total includes what was read from and written to the cache. */
  function DavinciUsage(u: Usage): Amounts {
    match u
    case NotObject(_) => UNKNOWN
    case UsageObject(input, read, written, output, _) =>
      Amounts(if Natural(input) && Natural(read) && Natural(written)
              then Int(input.i + read.i + written.i) else Null,
              read, output, written)
  }

  /** More cached than total input is contradictory: neither is then a token count. */
  function Adjusted(a: Amounts): Amounts {
    if a.input.Int? && a.cached.Int? && a.cached.i > a.input.i then a.(input := Null, cached := Null)
    else a
  }

  predicate AllNatural(a: Amounts) {
    Natural(a.input) && Natural(a.cached) && Natural(a.output) && Natural(a.cacheWrite)
  }

  // Exact or unknown.

  ghost predicate Known(charges: seq<Amounts>, f: Field) {
    charges != [] && forall a | a in charges :: Natural(Get(Adjusted(a), f))
  }

  function Sum(charges: seq<Amounts>, f: Field): nat {
    if charges == [] then 0
    else Sum(charges[..|charges| - 1], f) + Tokens(Get(Adjusted(charges[|charges| - 1]), f))
  }

  /** Every field is exactly the sum of its charges, or was charged something unusable. */
  ghost predicate Exact(totals: map<Field, nat>, missing: set<Field>, charges: seq<Amounts>) {
    forall f: Field ::
      && (f in totals <==> Known(charges, f))
      && (f in totals ==> totals[f] == Sum(charges, f))
      && (f in missing <==> exists a | a in charges :: !Natural(Get(Adjusted(a), f)))
  }

  /** `stats` and `missing`: a field without an entry in `totals` is reported as unknown. */
  class UsageTally {
    var totals: map<Field, nat>
    var missing: set<Field>
    var seen: bool
    ghost var charges: seq<Amounts>

    ghost predicate Valid()
      reads this
    {
      Exact(totals, missing, charges) && (seen <==> charges != [])
    }

    constructor ()
      ensures Valid() && charges == []
    {
      totals, missing, seen, charges := map[], {}, false, [];
    }

    /** `add_usage`. */
    method Charge(values: Amounts)
      requires Valid()
      modifies this
      ensures Valid() && charges == old(charges) + [values]
    {
      ghost var t, m := totals, missing;
      totals, missing := Charged(totals, missing, Adjusted(values));
      ChargeIsExact(t, m, totals, missing, charges, values);
      seen, charges := true, charges + [values];
    }
  }

  /** The effect of charging `value` on field `f`. */
  predicate FieldCharged(t: map<Field, nat>, m: set<Field>, t': map<Field, nat>, m': set<Field>,
                         f: Field, value: Json) {
    && (f in m' <==> f in m || !Natural(value))
    && (f in t' <==> Natural(value) && (f in m ==> f in t))
    && (f in t' ==> t'[f] == (if f in t then t[f] else 0) + (if f in m then 0 else value.i))
  }

  predicate FieldKept(t: map<Field, nat>, m: set<Field>, t': map<Field, nat>, m': set<Field>, f: Field) {
    (f in t' <==> f in t) && (f in t ==> t'[f] == t[f]) && (f in m' <==> f in m)
  }

  method Charged(t: map<Field, nat>, m: set<Field>, a: Amounts) returns (t': map<Field, nat>, m': set<Field>)
    ensures forall f: Field :: FieldCharged(t, m, t', m', f, Get(a, f))
  {
    t', m' := t, m;
    var fields := [Input, Cached, Output, CacheWrite];
    for i := 0 to 4
      invariant forall j | 0 <= j < i :: FieldCharged(t, m, t', m', fields[j], Get(a, fields[j]))
      invariant forall j | i <= j < 4 :: FieldKept(t, m, t', m', fields[j])
    {
      var f, value := fields[i], Get(a, fields[i]);
      if !Natural(value) {
        m' := m' + {f};
        t' := t' - {f};
      } else if f !in m' {
        t' := t'[f := (if f in t' then t'[f] else 0) + value.i];
      }
    }
    forall f: Field ensures FieldCharged(t, m, t', m', f, Get(a, f)) {
      var j := match f case Input => 0 case Cached => 1 case Output => 2 case CacheWrite => 3;
      assert fields[j] == f;
    }
  }

  lemma ChargeIsExact(t: map<Field, nat>, m: set<Field>, t': map<Field, nat>, m': set<Field>,
                      charges: seq<Amounts>, a: Amounts)
    requires Exact(t, m, charges)
    requires forall f: Field :: FieldCharged(t, m, t', m', f, Get(Adjusted(a), f))
    ensures Exact(t', m', charges + [a])
  {
    forall f: Field
      ensures f in t' <==> Known(charges + [a], f)
      ensures f in t' ==> t'[f] == Sum(charges + [a], f)
      ensures f in m' <==> exists b | b in charges + [a] :: !Natural(Get(Adjusted(b), f))
    {
      assert FieldCharged(t, m, t', m', f, Get(Adjusted(a), f));
      ChargeKnown(charges, a, f);
    }
  }

  lemma ChargeKnown(charges: seq<Amounts>, a: Amounts, f: Field)
    ensures Known(charges + [a], f) <==>
      (forall b | b in charges :: Natural(Get(Adjusted(b), f))) && Natural(Get(Adjusted(a), f))
    ensures Sum(charges + [a], f) == Sum(charges, f) + Tokens(Get(Adjusted(a), f))
    ensures (exists b | b in charges + [a] :: !Natural(Get(Adjusted(b), f))) <==>
      (exists b | b in charges :: !Natural(Get(Adjusted(b), f))) || !Natural(Get(Adjusted(a), f))
  {
    var all := charges + [a];
    assert all[..|all| - 1] == charges;
    assert forall b :: b in all <==> b in charges || b == a;
  }

  // Receipts of provider attempts.

  datatype Receipt = Receipt(status: Status, usage: Usage, rawUsage: Json, usageComplete: Json,
                             root: Json, actor: Json, model: Json, tier: Json)

  /** Two receipts are the same for the source when their shapes are equal. */
  function Shape(r: Receipt): Receipt {
    Receipt(
      match r.status case OtherStatus(v) => OtherStatus(Canonical(v)) case s => s,
      match r.usage
      case NotObject(v) => NotObject(Canonical(v))
      case UsageObject(i, cr, cw, o, other) =>
        UsageObject(Canonical(i), Canonical(cr), Canonical(cw), Canonical(o), other),
      Canonical(r.rawUsage), Canonical(r.usageComplete), Canonical(r.root), Canonical(r.actor),
      Canonical(r.model), Canonical(r.tier))
  }

  predicate IsReceipt(e: Event) {
    && e.Provider? && e.observation.Some?
    && var o := e.observation.value;
       o.purpose.Some? && o.request.Some? && o.kind == AttemptEnd && ValidAttempt(o.attempt)
  }

  function IdOf(e: Event): AttemptKey
    requires IsReceipt(e)
  {
    AttemptKey(KeyOf(e.observation.value), e.observation.value.attempt.i)
  }

  function ReceiptOf(e: Event): Receipt
    requires IsReceipt(e)
  {
    var o := e.observation.value;
    Receipt(o.status, o.usage, o.rawUsage, o.usageComplete, o.root, o.actor, o.model, o.tier)
  }

  /** Token counts that the receipt itself calls complete. */
  predicate Whole(r: Receipt) { r.usageComplete == Bool(true) && AllNatural(DavinciUsage(r.usage)) }

  predicate Full(r: Receipt) { Whole(r) && !r.status.OtherStatus? }

  datatype Ledger = Ledger(receipts: map<AttemptKey, Receipt>, complete: set<AttemptKey>,
                           uncertain: set<AttemptKey>, conflict: bool)

  function Noted(l: Ledger, e: Event): Ledger {
    if !IsReceipt(e) then l
    else
      var id, r := IdOf(e), ReceiptOf(e);
      var differs := id in l.receipts && Shape(l.receipts[id]) != Shape(r);
      Ledger(l.receipts[id := r],
             if Full(r) then l.complete + {id} else l.complete,
             if !Full(r) || differs then l.uncertain + {id} else l.uncertain,
             l.conflict || !Whole(r) || differs)
  }

  function Notes(events: seq<Event>): Ledger {
    if events == [] then Ledger(map[], {}, {}, false)
    else Noted(Notes(events[..|events| - 1]), events[|events| - 1])
  }

  /** The receipts of one attempt, in stream order. */
  function ReceiptsFor(events: seq<Event>, id: AttemptKey): seq<Receipt> {
    if events == [] then []
    else
      var rs, e := ReceiptsFor(events[..|events| - 1], id), events[|events| - 1];
      if IsReceipt(e) && IdOf(e) == id then rs + [ReceiptOf(e)] else rs
  }

  /** The attempt has receipts, every one of them is full, and they all agree. */
  predicate Undisputed(events: seq<Event>, id: AttemptKey) {
    var rs := ReceiptsFor(events, id);
    rs != [] && forall r | r in rs :: Full(r) && Shape(r) == Shape(rs[0])
  }

  ghost predicate Consistent(events: seq<Event>) {
    forall id :: Agreeing(ReceiptsFor(events, id))
  }

  predicate Agreeing(rs: seq<Receipt>) {
    forall r | r in rs :: Whole(r) && Shape(r) == Shape(rs[0])
  }

  /** The ledger's view of one attempt, once its receipts are `rs`. */
  predicate LedgerOf(l: Ledger, id: AttemptKey, rs: seq<Receipt>) {
    && (id in l.receipts <==> rs != [])
    && (id in l.receipts ==> l.receipts[id] == rs[|rs| - 1])
    && (id in l.complete <==> exists r | r in rs :: Full(r))
    && (id in l.uncertain <==> exists r | r in rs :: !Full(r) || Shape(r) != Shape(rs[0]))
    && (!Agreeing(rs) ==> l.conflict)
  }

  lemma LedgerGains(l: Ledger, e: Event, rs: seq<Receipt>)
    requires IsReceipt(e) && LedgerOf(l, IdOf(e), rs)
    ensures LedgerOf(Noted(l, e), IdOf(e), rs + [ReceiptOf(e)])
    ensures Noted(l, e).conflict <==> l.conflict || !Agreeing(rs + [ReceiptOf(e)])
    ensures Agreeing(rs + [ReceiptOf(e)]) ==> Agreeing(rs)
  {
    var r, all := ReceiptOf(e), rs + [ReceiptOf(e)];
    assert forall q :: q in all <==> q in rs || q == r;
    assert all[0] == if rs == [] then r else rs[0];
    if rs != [] {
      assert rs[|rs| - 1] in rs;
    }
  }

  lemma {:induction false} NotesFacts(events: seq<Event>)
    ensures forall id :: LedgerOf(Notes(events), id, ReceiptsFor(events, id))
    ensures !Notes(events).conflict <==> Consistent(events)
  {
    if events != [] {
      var before, e := events[..|events| - 1], events[|events| - 1];
      NotesFacts(before);
      forall id | !IsReceipt(e) || IdOf(e) != id
        ensures ReceiptsFor(events, id) == ReceiptsFor(before, id)
      {
      }
      if IsReceipt(e) {
        NotesGain(before, e, events);
      } else {
        assert Notes(events) == Notes(before);
        assert Consistent(events) <==> Consistent(before);
      }
    }
  }

  lemma NotesGain(before: seq<Event>, e: Event, events: seq<Event>)
    requires events != [] && before == events[..|events| - 1] && e == events[|events| - 1] && IsReceipt(e)
    requires forall id :: LedgerOf(Notes(before), id, ReceiptsFor(before, id))
    requires !Notes(before).conflict <==> Consistent(before)
    ensures forall id :: LedgerOf(Notes(events), id, ReceiptsFor(events, id))
    ensures !Notes(events).conflict <==> Consistent(events)
  {
    var id0 := IdOf(e);
    assert LedgerOf(Notes(before), id0, ReceiptsFor(before, id0));
    LedgerGains(Notes(before), e, ReceiptsFor(before, id0));
    forall id ensures LedgerOf(Notes(events), id, ReceiptsFor(events, id)) {
      assert LedgerOf(Notes(before), id, ReceiptsFor(before, id));
    }
    ConsistentGains(before, events, id0);
  }

  lemma ConsistentGains(before: seq<Event>, events: seq<Event>, id0: AttemptKey)
    requires forall id | id != id0 :: ReceiptsFor(events, id) == ReceiptsFor(before, id)
    requires Agreeing(ReceiptsFor(events, id0)) ==> Agreeing(ReceiptsFor(before, id0))
    ensures Consistent(events) <==> Consistent(before) && Agreeing(ReceiptsFor(events, id0))
  {
    if Consistent(events) {
      forall id ensures Agreeing(ReceiptsFor(before, id)) {
        assert Agreeing(ReceiptsFor(events, id));
      }
    }
    if Consistent(before) && Agreeing(ReceiptsFor(events, id0)) {
      forall id ensures Agreeing(ReceiptsFor(events, id)) {
        assert Agreeing(ReceiptsFor(before, id));
      }
    }
  }

  // The connection with the activity of the same stream.

  lemma {:induction false} FoldFrom(events: seq<Event>)
    requires events != []
    ensures Fold(START, events) == Step(Fold(START, events[..|events| - 1]), events[|events| - 1])
  {
    assert events == events[..|events| - 1] + [events[|events| - 1]];
    FoldOne(START, events[..|events| - 1], events[|events| - 1]);
  }

  /** In a stream without any loss, the ended attempts are exactly those with a receipt. */
  lemma {:induction false} ReceiptsAreEndedAttempts(events: seq<Event>)
    requires !Fold(START, events).requests.overflow
    ensures Notes(events).receipts.Keys == Fold(START, events).requests.attemptsEnded
    ensures !Fold(START, events).requests.unknownOutcome ==>
      forall id, r | r in ReceiptsFor(events, id) :: !r.status.OtherStatus?
  {
    if events != [] {
      var before, e := events[..|events| - 1], events[|events| - 1];
      FoldFrom(events);
      StepGrows(Fold(START, before), e);
      ReceiptsAreEndedAttempts(before);
      AttemptEndEffect(Fold(START, before), e);
    }
  }

  lemma AttemptEndEffect(a: Activity, e: Event)
    requires !Step(a, e).requests.overflow
    ensures var b := Step(a, e).requests;
      && b.attemptsEnded == a.requests.attemptsEnded + (if IsReceipt(e) then {IdOf(e)} else {})
      && (IsReceipt(e) && !b.unknownOutcome ==> !ReceiptOf(e).status.OtherStatus?)
  {
  }

  /** What one attempt contributes to one field. */
  ghost function AmountOf(receipts: map<AttemptKey, Receipt>, f: Field): AttemptKey -> nat {
    id => if id in receipts then Tokens(Get(DavinciUsage(receipts[id].usage), f)) else 0
  }

  datatype UsageReport = UsageReport(
    totals: map<Field, nat>, available: bool, known: Option<map<Field, nat>>,
    completeAttempts: nat, unknownAttempts: Option<int>)

  ghost predicate TotalsOf(totals: map<Field, nat>, ids: set<AttemptKey>, receipts: map<AttemptKey, Receipt>) {
    forall f: Field :: f in totals && totals[f] == SumOver(ids, AmountOf(receipts, f))
  }

  method SumField(ids: set<AttemptKey>, receipts: map<AttemptKey, Receipt>, f: Field) returns (n: nat)
    requires ids <= receipts.Keys
    ensures n == SumOver(ids, AmountOf(receipts, f))
  {
    n := 0;
    var rest := ids;
    while rest != {}
      invariant rest <= ids
      invariant n + SumOver(rest, AmountOf(receipts, f)) == SumOver(ids, AmountOf(receipts, f))
    {
      ghost var some := MemberOf(rest);
      var id :| id in rest;
      SumRemove(rest, AmountOf(receipts, f), id);
      n := n + Tokens(Get(DavinciUsage(receipts[id].usage), f));
      rest := rest - {id};
    }
    SumEmpty(AmountOf(receipts, f));
  }

  method SumReceipts(ids: set<AttemptKey>, receipts: map<AttemptKey, Receipt>) returns (known: map<Field, nat>)
    requires ids <= receipts.Keys
    ensures TotalsOf(known, ids, receipts)
  {
    var input := SumField(ids, receipts, Input);
    var cached := SumField(ids, receipts, Cached);
    var output := SumField(ids, receipts, Output);
    var written := SumField(ids, receipts, CacheWrite);
    known := map[Input := input, Cached := cached, Output := output, CacheWrite := written];
    forall f: Field ensures f in known && known[f] == SumOver(ids, AmountOf(receipts, f)) {
      match f case Input => case Cached => case Output => case CacheWrite =>
    }
  }

  /** Everything that has to be seen before a total is exact. */
  ghost predicate Accountable(events: seq<Event>) {
    && CompleteMetrics(Fold(START, events).requests)
    && Notes(events).receipts != map[]
    && Consistent(events)
  }

  /** In an accountable stream every attempt has exactly the receipts it should have. */
  lemma AccountableAttempts(events: seq<Event>)
    requires Accountable(events)
    ensures var l := Notes(events);
      Fold(START, events).requests.attempts == l.receipts.Keys == l.complete - l.uncertain
    ensures forall id | id in Notes(events).receipts :: Undisputed(events, id)
  {
    NotesFacts(events);
    ReceiptsAreEndedAttempts(events);
    var l := Notes(events);
    forall id
      ensures id in l.receipts ==> Undisputed(events, id)
      ensures id in l.receipts.Keys <==> id in l.complete - l.uncertain
    {
      var rs := ReceiptsFor(events, id);
      assert LedgerOf(l, id, rs) && Agreeing(rs);
      if rs != [] {
        assert rs[0] in rs;
      }
    }
  }

  predicate Chargeable(charges: seq<Amounts>) {
    forall a | a in charges :: AllNatural(a) && Adjusted(a) == a
  }

  ghost predicate ChargedSoFar(charges: seq<Amounts>, rest: set<AttemptKey>, receipts: map<AttemptKey, Receipt>) {
    forall f: Field ::
      Sum(charges, f) + SumOver(rest, AmountOf(receipts, f)) == SumOver(receipts.Keys, AmountOf(receipts, f))
  }

  lemma ChargeReceipt(charges: seq<Amounts>, rest: set<AttemptKey>, receipts: map<AttemptKey, Receipt>,
                      id: AttemptKey)
    requires Chargeable(charges) && ChargedSoFar(charges, rest, receipts)
    requires id in rest && id in receipts && AllNatural(DavinciUsage(receipts[id].usage))
    ensures Chargeable(charges + [DavinciUsage(receipts[id].usage)])
    ensures ChargedSoFar(charges + [DavinciUsage(receipts[id].usage)], rest - {id}, receipts)
  {
    var u := DavinciUsage(receipts[id].usage);
    assert Adjusted(u) == u;
    forall f: Field
      ensures Sum(charges + [u], f) + SumOver(rest - {id}, AmountOf(receipts, f))
           == SumOver(receipts.Keys, AmountOf(receipts, f))
    {
      SumRemove(rest, AmountOf(receipts, f), id);
      ChargeKnown(charges, u, f);
    }
  }

  lemma ChargedIsExact(totals: map<Field, nat>, missing: set<Field>, charges: seq<Amounts>,
                       receipts: map<AttemptKey, Receipt>)
    requires Exact(totals, missing, charges) && Chargeable(charges) && charges != []
    requires ChargedSoFar(charges, {}, receipts)
    ensures TotalsOf(totals, receipts.Keys, receipts) && missing == {}
  {
    forall f: Field
      ensures f in totals && totals[f] == SumOver(receipts.Keys, AmountOf(receipts, f))
      ensures f !in missing
    {
      assert Known(charges, f);
      SumEmpty(AmountOf(receipts, f));
    }
  }

  /** Charges every receipt once, in any order. */
  method ChargeAll(tally: UsageTally, receipts: map<AttemptKey, Receipt>)
    requires tally.Valid() && tally.charges == [] && receipts != map[]
    requires forall id | id in receipts :: AllNatural(DavinciUsage(receipts[id].usage))
    modifies tally
    ensures tally.Valid()
    ensures TotalsOf(tally.totals, receipts.Keys, receipts) && tally.missing == {} && tally.seen
  {
    var rest := receipts.Keys;
    ghost var some := MemberOf(rest);
    while rest != {}
      invariant rest <= receipts.Keys && tally.Valid()
      invariant some in rest || tally.charges != []
      invariant Chargeable(tally.charges) && ChargedSoFar(tally.charges, rest, receipts)
    {
      some := MemberOf(rest);
      var id :| id in rest;
      ChargeReceipt(tally.charges, rest, receipts, id);
      tally.Charge(DavinciUsage(receipts[id].usage));
      rest := rest - {id};
    }
    ChargedIsExact(tally.totals, tally.missing, tally.charges, receipts);
  }

  lemma UnknownPoisons(totals: map<Field, nat>, missing: set<Field>, charges: seq<Amounts>)
    requires Exact(totals, missing, charges) && UNKNOWN in charges
    ensures totals == map[] && missing != {}
  {
    forall f: Field ensures f !in totals && f in missing {
      assert !Natural(Get(Adjusted(UNKNOWN), f));
    }
    assert Input in missing;
  }

  method BuildLedger(events: seq<Event>) returns (l: Ledger)
    ensures l == Notes(events)
  {
    l := Ledger(map[], {}, {}, false);
    for n := 0 to |events|
      invariant l == Notes(events[..n])
    {
      assert events[..n + 1][..n] == events[..n];
      l := Noted(l, events[n]);
    }
    assert events[..|events|] == events;
  }

  /** What is known in any case: the use of the attempts with an undisputed full receipt. */
  ghost predicate LowerBound(events: seq<Event>, known: Option<map<Field, nat>>) {
    var sure := Notes(events).complete - Notes(events).uncertain;
    && (known.Some? <==> sure != {})
    && (known.Some? ==> TotalsOf(known.value, sure, Notes(events).receipts))
  }

  /** The attempts whose use is counted as known are exactly the undisputed ones. */
  lemma SureIsUndisputed(events: seq<Event>)
    ensures var l := Notes(events);
      forall id :: (id in l.complete - l.uncertain <==> Undisputed(events, id))
                   && (id in l.complete - l.uncertain ==> id in l.receipts)
  {
    NotesFacts(events);
    var l := Notes(events);
    forall id
      ensures id in l.complete - l.uncertain <==> Undisputed(events, id)
      ensures id in l.complete - l.uncertain ==> id in l.receipts
    {
      var rs := ReceiptsFor(events, id);
      assert LedgerOf(l, id, rs);
      assert rs != [] ==> rs[0] in rs;
    }
  }

  /** `known_usage`: what the attempts with an undisputed full receipt used. */
  method KnownUsage(events: seq<Event>, l: Ledger) returns (known: Option<map<Field, nat>>)
    requires l == Notes(events)
    ensures LowerBound(events, known)
  {
    SureIsUndisputed(events);
    var sure := l.complete - l.uncertain;
    known := None;
    if sure != {} {
      var k := SumReceipts(sure, l.receipts);
      known := Some(k);
    }
  }

  /** Charges the receipts, or an unknown amount when they do not account for the stream. */
  method TallyReceipts(events: seq<Event>, l: Ledger, complete: bool, malformed: bool)
    returns (totals: map<Field, nat>, available: bool)
    requires l == Notes(events) && complete == CompleteMetrics(Fold(START, events).requests)
    ensures available <==> Accountable(events) && !malformed
    ensures if available then TotalsOf(totals, l.receipts.Keys, l.receipts) else totals == map[]
  {
    NotesFacts(events);
    var tally := new UsageTally();
    if !complete || l.receipts == map[] || l.conflict {
      tally.Charge(UNKNOWN);
      UnknownPoisons(tally.totals, tally.missing, tally.charges);
    } else {
      forall id | id in l.receipts ensures AllNatural(DavinciUsage(l.receipts[id].usage)) {
        assert LedgerOf(l, id, ReceiptsFor(events, id));
        assert l.receipts[id] in ReceiptsFor(events, id);
      }
      ChargeAll(tally, l.receipts);
    }
    if malformed {
      tally.Charge(UNKNOWN);
      UnknownPoisons(tally.totals, tally.missing, tally.charges);
    }
    return tally.totals, tally.seen && tally.missing == {};
  }
}
