/** What the order book of fixture m6 answers and keeps (scripts/bench/make_large_tasks.py). */
module OrderFacts {
  // Each operation's answer and its new state, said of references, lines, quantities and statuses
  // themselves, and what whole runs keep of an order.

  import opened Inventories
  import opened Orders
  import opened Stock
  import opened StockFacts
  import opened Text
  import opened Wrappers

  predicate HasRef(b: Book, id: OrderId, ref: string) { id in b.orders && b.orders[id].ref == ref }

  /** What a new order may take of a SKU. */
  ghost function Spare(s: Store, sku: Sku): nat { if Unreserved(s, sku) > 0 then Unreserved(s, sku) else 0 }

  /** More is asked for than is spare, of a product that must not be backordered. */
  ghost predicate TooFew(s: Store, lines: seq<Line>, sku: Sku) {
    && Demand(lines, sku) > Spare(s, sku)
    && sku in s.products && !s.products[sku].backorderable
  }

  /** The lines before this one are served first. */
  ghost predicate Serves(s: Store, lines: seq<Line>, i: nat, l: OrderLine)
    requires i < |lines|
  {
    var left := Spare(s, lines[i].sku) - Demand(lines[..i], lines[i].sku);
    && l.sku == lines[i].sku && l.qty == lines[i].qty
    && l.reserved == (if left <= 0 then 0 else if left < lines[i].qty then left else lines[i].qty)
    && l.backorder == l.qty - l.reserved
  }

  /** The order as it is placed. */
  ghost predicate IsOrder(s: Store, ref: string, lines: seq<Line>, o: Order) {
    && o.ref == ref && |o.lines| == |lines|
    && (forall i | 0 <= i < |lines| :: Serves(s, lines, i, o.lines[i]))
    && o.status == (if exists sku :: Demand(lines, sku) > Spare(s, sku) then Backordered else Open)
  }

  /** The book has one order more, with a number beyond all others, and nothing else is different. */
  ghost predicate OneMore(b: Book, b': Book, id: OrderId) {
    && (forall x | x in b.orders :: x < id)
    && b'.orders.Keys == b.orders.Keys + {id} && (forall x | x in b.orders :: b'.orders[x] == b.orders[x])
    && b'.store.products == b.store.products && b'.store.stock == b.store.stock && b'.store.log == b.store.log
    && OnlyHolds(b.store, b'.store, id)
  }

  /** The order holds as much of what is asked for as is spare. */
  ghost predicate HoldsItsShare(s: Store, lines: seq<Line>, held: map<Sku, nat>) {
    forall sku: Sku :: At(held, sku) == Min(Demand(lines, sku), Spare(s, sku))
  }

  ghost predicate HasNewOrder(b: Book, ref: string, lines: seq<Line>, b': Book, id: OrderId) {
    && OneMore(b, b', id) && IsOrder(b.store, ref, lines, b'.orders[id])
    && HoldsItsShare(b.store, lines, HeldBy(b'.store, id))
  }

  /** What is answered to lines that are all in order. */
  ghost predicate AnswersGood(b: Book, ref: string, lines: seq<Line>, r: Result<(Book, OrderId), Error>) {
    if exists sku :: TooFew(b.store, lines, sku) then r == Err(InsufficientStock)
    else r.Ok? && HasNewOrder(b, ref, lines, r.value.0, r.value.1)
  }

  /** What is answered to a new reference with lines. */
  ghost predicate AnswersLines(b: Book, ref: string, lines: seq<Line>, r: Result<(Book, OrderId), Error>) {
    if exists i :: FirstBad(b.store, lines, i) then
      forall i | FirstBad(b.store, lines, i) ::
        r == Err(if lines[i].sku !in b.store.products then UnknownSku else Invalid)
    else AnswersGood(b, ref, lines, r)
  }

  /** Placing an order. */
  ghost predicate Places(b: Book, ref: string, lines: seq<Line>, r: Result<(Book, OrderId), Error>) {
    if OnlySpace(ref) then r == Err(Invalid)
    else if exists id :: HasRef(b, id, ref) then r.Ok? && r.value.0 == b && HasRef(b, r.value.1, ref)
    else if lines == [] then r == Err(Invalid)
    else AnswersLines(b, ref, lines, r)
  }

  /** No two orders have one reference. */
  lemma OneOrderPerRef(b: Book, ref: string, i: OrderId, j: OrderId)
    requires BookInv(b) && HasRef(b, i, ref) && HasRef(b, j, ref)
    ensures i == j
  {
    assert OrderKept(b, i) && OrderKept(b, j);
  }

  lemma RefsAreOrders(b: Book, ref: string)
    requires BookInv(b)
    ensures ref in b.byRef <==> exists id :: HasRef(b, id, ref)
    ensures ref in b.byRef ==> HasRef(b, b.byRef[ref], ref)
  {
    if id :| HasRef(b, id, ref) {
      assert OrderKept(b, id);
    }
    if ref in b.byRef {
      assert HasRef(b, b.byRef[ref], ref);
    }
  }

  lemma SpareIsFree(s: Store, sku: Sku)
    ensures Spare(s, sku) == Free(s, sku)
  {
    UnreservedIsAvailable(s, sku);
  }

  lemma LackingIsDemand(s: Store, lines: seq<Line>, sku: Sku)
    requires AllGood(s, lines)
    ensures Lacking(s, Wanted(lines), sku) <==> Demand(lines, sku) > Spare(s, sku)
  {
    SpareIsFree(s, sku);
    DemandIsWanted(s, lines, sku);
  }

  lemma RefusedIsTooFew(s: Store, lines: seq<Line>)
    requires AllGood(s, lines)
    ensures Refused(s, Wanted(lines)) <==> exists sku :: TooFew(s, lines, sku)
    ensures (exists sku :: Lacking(s, Wanted(lines), sku)) <==> exists sku :: Demand(lines, sku) > Spare(s, sku)
  {
    forall sku ensures Lacking(s, Wanted(lines), sku) <==> Demand(lines, sku) > Spare(s, sku) {
      LackingIsDemand(s, lines, sku);
    }
    if sku :| TooFew(s, lines, sku) {
      assert Lacking(s, Wanted(lines), sku);
    }
    if sku :| Lacking(s, Wanted(lines), sku) && sku in s.products && !s.products[sku].backorderable {
      assert TooFew(s, lines, sku);
    }
  }

  // The lines of a new order.

  ghost predicate Served(lines: seq<Line>, budget: map<Sku, nat>, i: nat, l: OrderLine)
    requires i < |lines|
  {
    var left := At(budget, lines[i].sku) - Demand(lines[..i], lines[i].sku);
    && l.sku == lines[i].sku && l.qty == lines[i].qty
    && l.reserved == (if left <= 0 then 0 else if left < lines[i].qty then left else lines[i].qty)
    && l.backorder == l.qty - l.reserved
  }

  lemma {:induction false} AllocatedServes(lines: seq<Line>, budget: map<Sku, nat>, i: nat)
    requires i < |lines| && forall l | l in lines :: l.qty > 0
    ensures |Allocated(lines, budget)| == |lines| && Served(lines, budget, i, Allocated(lines, budget)[i])
    decreases |lines|
  {
    AllocatedLength(lines, budget);
    if i > 0 {
      var l, rest := lines[0], lines[1..];
      var take := Min(Max(l.qty, 0), At(budget, l.sku));
      var left := budget[l.sku := At(budget, l.sku) - take];
      AllocatedServes(rest, left, i - 1);
      assert rest[i - 1] == lines[i];
      DemandOfTail(lines, i, lines[i].sku);
      DemandIsNatural(rest[..i - 1], lines[i].sku);
      assert l in lines;
    } else {
      assert lines[0] in lines;
    }
  }

  lemma DemandOfTail(lines: seq<Line>, i: nat, sku: Sku)
    requires 0 < i < |lines|
    ensures Demand(lines[..i], sku) == (if lines[0].sku == sku then lines[0].qty else 0) + Demand(lines[1..][..i - 1], sku)
  {
    assert lines[..i][1..] == lines[1..][..i - 1];
  }

  lemma {:induction false} DemandIsNatural(lines: seq<Line>, sku: Sku)
    requires forall l | l in lines :: l.qty > 0
    ensures Demand(lines, sku) >= 0
    decreases |lines|
  {
    if lines != [] {
      assert lines[0] in lines;
      DemandIsNatural(lines[1..], sku);
    }
  }

  lemma {:induction false} AllocatedLength(lines: seq<Line>, budget: map<Sku, nat>)
    ensures |Allocated(lines, budget)| == |lines|
  {
    if lines != [] {
      var take := Min(Max(lines[0].qty, 0), At(budget, lines[0].sku));
      AllocatedLength(lines[1..], budget[lines[0].sku := At(budget, lines[0].sku) - take]);
    }
  }

  /** A part of the lines asks for no more than all of them. */
  lemma {:induction false} DemandOfPart(lines: seq<Line>, i: nat, sku: Sku)
    requires i < |lines| && lines[i].sku == sku && forall l | l in lines :: l.qty > 0
    ensures Demand(lines[..i], sku) + lines[i].qty <= Demand(lines, sku)
    decreases |lines|
  {
    if i == 0 {
      DemandIsNatural(lines[1..], sku);
    } else {
      DemandOfTail(lines, i, sku);
      DemandOfPart(lines[1..], i - 1, sku);
    }
  }

  lemma NewLinesServe(s: Store, lines: seq<Line>, i: nat)
    requires AllGood(s, lines) && i < |lines|
    ensures var ls := Allocated(lines, Budget(s, Wanted(lines)));
      |ls| == |lines| && Serves(s, lines, i, ls[i])
  {
    var budget, sku := Budget(s, Wanted(lines)), lines[i].sku;
    forall l | l in lines ensures l.qty > 0 {
      var j :| 0 <= j < |lines| && lines[j] == l;
      assert !Bad(s, lines[j]);
    }
    AllocatedServes(lines, budget, i);
    DemandOfPart(lines, i, sku);
    DemandIsWanted(s, lines, sku);
    SpareIsFree(s, sku);
  }

  lemma NewOrderIsOrder(s: Store, ref: string, lines: seq<Line>)
    requires AllGood(s, lines) && Planned(s, Wanted(lines)).Ok?
    ensures IsOrder(s, ref, lines, NewOrder(ref, lines, Planned(s, Wanted(lines)).value))
  {
    var o := NewOrder(ref, lines, Planned(s, Wanted(lines)).value);
    AllocatedLength(lines, Budget(s, Wanted(lines)));
    forall i | 0 <= i < |lines| ensures Serves(s, lines, i, o.lines[i]) {
      NewLinesServe(s, lines, i);
    }
    RefusedIsTooFew(s, lines);
  }

  lemma NewOrderHolds(s: Store, lines: seq<Line>)
    requires AllGood(s, lines)
    ensures HoldsItsShare(s, lines, Positive(Budget(s, Wanted(lines))))
  {
    forall sku ensures At(Positive(Budget(s, Wanted(lines))), sku) == Min(Demand(lines, sku), Spare(s, sku)) {
      DemandIsWanted(s, lines, sku);
      SpareIsFree(s, sku);
    }
  }

  lemma WithOrderIsOneMore(b: Book, o: Order, held: map<Sku, nat>)
    requires BookInv(b)
    ensures var b' := WithOrder(b, o, held);
      OneMore(b, b', b.last + 1) && b'.orders[b.last + 1] == o && HeldBy(b'.store, b.last + 1) == held
  {
    forall x | x in b.orders ensures x < b.last + 1 {
      assert OrderKept(b, x);
    }
  }

  lemma PlanIs(s: Store, wanted: map<Sku, nat>)
    requires Planned(s, wanted).Ok?
    ensures Planned(s, wanted).value.0 == Budget(s, wanted)
  {
  }

  lemma PlannedIsNew(b: Book, ref: string, lines: seq<Line>, plan: (map<Sku, nat>, bool))
    requires BookInv(b) && AllGood(b.store, lines) && Planned(b.store, Wanted(lines)) == Ok(plan)
    ensures HasNewOrder(b, ref, lines, WithOrder(b, NewOrder(ref, lines, plan), Positive(plan.0)), b.last + 1)
  {
    WithOrderIsOneMore(b, NewOrder(ref, lines, plan), Positive(plan.0));
    NewOrderIsOrder(b.store, ref, lines);
    NewOrderHolds(b.store, lines);
    PlanIs(b.store, Wanted(lines));
  }

  lemma PlacingGood(b: Book, ref: string, lines: seq<Line>, plan: (map<Sku, nat>, bool))
    requires Strip(ref) != "" && ref !in b.byRef && lines != [] && LinesError(b.store, lines).None?
    requires Planned(b.store, Wanted(lines)) == Ok(plan)
    ensures Placing(b, ref, lines) == Ok((WithOrder(b, NewOrder(ref, lines, plan), Positive(plan.0)), b.last + 1))
  {
  }

  lemma PlacingRefused(b: Book, ref: string, lines: seq<Line>, e: Error)
    requires Strip(ref) != "" && ref !in b.byRef && lines != [] && LinesError(b.store, lines).None?
    requires Planned(b.store, Wanted(lines)) == Err(e)
    ensures Placing(b, ref, lines) == Err(e)
  {
  }

  lemma PlacingBad(b: Book, ref: string, lines: seq<Line>, e: Error)
    requires Strip(ref) != "" && ref !in b.byRef && lines != [] && LinesError(b.store, lines) == Some(e)
    ensures Placing(b, ref, lines) == Err(e)
  {
  }

  lemma PlanFails(s: Store, lines: seq<Line>)
    requires AllGood(s, lines)
    ensures if exists sku :: TooFew(s, lines, sku) then Planned(s, Wanted(lines)) == Err(InsufficientStock)
            else Planned(s, Wanted(lines)).Ok?
  {
    RefusedIsTooFew(s, lines);
  }

  lemma PlaceGoodLines(b: Book, ref: string, lines: seq<Line>)
    requires BookInv(b) && Strip(ref) != "" && ref !in b.byRef && lines != []
    requires AllGood(b.store, lines) && LinesError(b.store, lines).None?
    ensures AnswersGood(b, ref, lines, Placing(b, ref, lines))
  {
    var plan := Planned(b.store, Wanted(lines));
    PlanFails(b.store, lines);
    if plan.Ok? {
      PlacingGood(b, ref, lines, plan.value);
      PlannedIsNew(b, ref, lines, plan.value);
    } else {
      PlacingRefused(b, ref, lines, plan.error);
    }
  }

  lemma PlaceLines(b: Book, ref: string, lines: seq<Line>)
    requires BookInv(b) && Strip(ref) != "" && ref !in b.byRef && lines != []
    ensures AnswersLines(b, ref, lines, Placing(b, ref, lines))
  {
    var i := LinesErrorIsFirstBad(b.store, lines);
    if i == |lines| {
      PlaceGoodLines(b, ref, lines);
    } else {
      PlacingBad(b, ref, lines, LinesError(b.store, lines).value);
      forall j | FirstBad(b.store, lines, j) ensures j == i {
        FirstBadIsUnique(b.store, lines, i, j);
      }
    }
  }

  lemma PlacingElse(b: Book, ref: string, lines: seq<Line>)
    requires Strip(ref) == "" || ref in b.byRef || lines == []
    ensures Placing(b, ref, lines) ==
      if Strip(ref) == "" || ref !in b.byRef then Err(Invalid) else Ok((b, b.byRef[ref]))
  {
  }

  /**
   What placing an order answers in every case: a blank reference is refused; a reference that an
   order of the book has is answered with that order, and nothing changes; of lines that are not in
   order the first decides the error; and a new order is served line by line from what is spare.
  */
  lemma PlaceDecided(b: Book, ref: string, lines: seq<Line>)
    requires BookInv(b)
    ensures Places(b, ref, lines, Placing(b, ref, lines))
  {
    StripsToNothing(ref);
    RefsAreOrders(b, ref);
    if Strip(ref) == "" || ref in b.byRef || lines == [] {
      PlacingElse(b, ref, lines);
    } else {
      PlaceLines(b, ref, lines);
    }
  }

  // Cancelling and shipping.

  /** Only the status of this order is different. */
  ghost predicate OnlyStatus(b: Book, b': Book, id: OrderId, status: Status)
    requires id in b.orders
  {
    && b'.orders.Keys == b.orders.Keys && (forall x | x in b.orders && x != id :: b'.orders[x] == b.orders[x])
    && b'.orders[id].ref == b.orders[id].ref && b'.orders[id].lines == b.orders[id].lines
    && b'.orders[id].status == status
  }

  /** The order holds nothing any more, and the others hold what they held. */
  ghost predicate GivesUp(s: Store, s': Store, id: OrderId) {
    && s'.products == s.products && s'.held.Keys == s.held.Keys - {id}
    && forall x | x in s.held && x != id :: s'.held[x] == s.held[x]
  }

  ghost predicate Cancels(b: Book, id: OrderId, r: Result<Book, Error>) {
    if id !in b.orders then r == Err(UnknownOrder)
    else match b.orders[id].status
      case Shipped => r == Err(WrongState)
      case Cancelled => r == Ok(b)
      case _ =>
        && r.Ok? && OnlyStatus(b, r.value, id, Cancelled) && GivesUp(b.store, r.value.store, id)
        && r.value.store.stock == b.store.stock && r.value.store.log == b.store.log
  }

  lemma CancelDecided(b: Book, id: OrderId)
    requires BookInv(b)
    ensures Cancels(b, id, Cancelling(b, id))
  {
  }

  /** Sold from the warehouses in the order of their names, and logged. */
  ghost predicate Sells(s: Store, s': Store, id: OrderId) {
    && Valid(s') && LogsSales(s, s', HeldBy(s, id).Keys)
    && forall sku: Sku :: SellsOf(s, s', id, sku)
  }

  ghost predicate SellsOf(s: Store, s': Store, id: OrderId, sku: Sku) {
    && InOrder(Levels(s, sku), Levels(s', sku))
    && OnHand(s', sku) == OnHand(s, sku) - Min(At(HeldBy(s, id), sku), OnHand(s, sku))
  }

  ghost predicate Ships(b: Book, id: OrderId, r: Result<Book, Error>) {
    if id !in b.orders then r == Err(UnknownOrder)
    else match b.orders[id].status
      case Open =>
        && r.Ok? && OnlyStatus(b, r.value, id, Shipped) && GivesUp(b.store, r.value.store, id)
        && Sells(b.store, r.value.store, id)
      case _ => r == Err(WrongState)
  }

  lemma CommitSells(s: Store, id: OrderId)
    requires Valid(s)
    ensures Sells(s, Committed(s, id), id) && GivesUp(s, Committed(s, id), id)
  {
    forall sku: Sku ensures SellsOf(s, Committed(s, id), id, sku) {
      CommitDecided(s, id, sku);
    }
    CommitDecided(s, id, 0);
  }

  lemma ShippingOpen(b: Book, id: OrderId, s: Store)
    requires Valid(b.store) && id in b.orders && b.orders[id].status == Open
    requires s == Committed(b.store, id)
    ensures Shipping(b, id) == Ok(b.(store := s, orders := b.orders[id := b.orders[id].(status := Shipped)]))
  {
  }

  lemma ShipDecided(b: Book, id: OrderId)
    requires BookInv(b)
    ensures Ships(b, id, Shipping(b, id))
  {
    if id in b.orders && b.orders[id].status == Open {
      ShippingOpen(b, id, Committed(b.store, id));
      CommitSells(b.store, id);
    }
  }

  // Runs.

  /** How an order may go on: it is shipped only when it was open, and what is settled stays. */
  predicate GoesOn(s: Status, t: Status) {
    s == t || (t == Cancelled && s in {Open, Backordered}) || (t == Shipped && s == Open)
  }

  ghost predicate Lasts(b: Book, b': Book, id: OrderId) {
    && id in b.orders && id in b'.orders
    && b'.orders[id].ref == b.orders[id].ref && b'.orders[id].lines == b.orders[id].lines
    && GoesOn(b.orders[id].status, b'.orders[id].status)
  }

  lemma OrderLasts(b: Book, a: Action, id: OrderId)
    requires BookInv(b) && id in b.orders
    ensures Lasts(b, After(b, a), id)
  {
    match a
    case Place(ref, lines) => PlaceLasts(b, ref, lines, id);
    case Cancel(x) => CancelDecided(b, x);
    case Ship(x) => ShipLasts(b, x, id);
    case _ =>
  }

  lemma PlaceLasts(b: Book, ref: string, lines: seq<Line>, id: OrderId)
    requires BookInv(b) && id in b.orders
    ensures Placing(b, ref, lines).Ok? ==> Lasts(b, Placing(b, ref, lines).value.0, id)
  {
    PlaceDecided(b, ref, lines);
  }

  lemma ShipLasts(b: Book, x: OrderId, id: OrderId)
    requires BookInv(b) && id in b.orders
    ensures Shipping(b, x).Ok? ==> Lasts(b, Shipping(b, x).value, id)
  {
    ShipDecided(b, x);
  }

  lemma LastsOn(b: Book, c: Book, d: Book, id: OrderId)
    requires Lasts(b, c, id) && Lasts(c, d, id)
    ensures Lasts(b, d, id)
  {
  }

  ghost predicate LastsStep(bs: seq<Book>, k: nat)
    requires k + 1 < |bs|
  {
    forall id | id in bs[k].orders :: Lasts(bs[k], bs[k + 1], id)
  }

  lemma {:induction false} LastsSteps(bs: seq<Book>, i: nat, j: nat, id: OrderId)
    requires forall k | 0 <= k < |bs| - 1 :: LastsStep(bs, k)
    requires i <= j < |bs| && id in bs[i].orders
    ensures Lasts(bs[i], bs[j], id)
    decreases j - i
  {
    if i < j {
      LastsSteps(bs, i, j - 1, id);
      assert LastsStep(bs, j - 1);
      LastsOn(bs[i], bs[j - 1], bs[j], id);
    }
  }

  /** In every run an order stays in the book, with its reference and its lines. */
  lemma OrdersLast(bs: seq<Book>, actions: seq<Action>, i: nat, j: nat, id: OrderId)
    requires IsRun(bs, actions) && i <= j < |bs| && id in bs[i].orders
    ensures Lasts(bs[i], bs[j], id)
  {
    forall k | 0 <= k < |bs| - 1 ensures LastsStep(bs, k) {
      RunStepLasts(bs, actions, k);
    }
    LastsSteps(bs, i, j, id);
  }

  lemma RunStepLasts(bs: seq<Book>, actions: seq<Action>, k: nat)
    requires IsRun(bs, actions) && k < |actions|
    ensures LastsStep(bs, k)
  {
    RunKeepsBook(bs, actions, k);
    forall id | id in bs[k].orders ensures Lasts(bs[k], bs[k + 1], id) {
      OrderLasts(bs[k], actions[k], id);
    }
  }

  lemma PlacedHasRef(bs: seq<Book>, actions: seq<Action>, i: nat, ref: string, lines: seq<Line>)
    requires IsRun(bs, actions) && i < |actions| && actions[i] == Place(ref, lines) && Placing(bs[i], ref, lines).Ok?
    ensures HasRef(bs[i + 1], Placing(bs[i], ref, lines).value.1, ref)
  {
    RunKeepsBook(bs, actions, i);
    PlaceDecided(bs[i], ref, lines);
  }

  lemma KnownRefIsAnswered(b: Book, ref: string, lines: seq<Line>, id: OrderId)
    requires BookInv(b) && HasRef(b, id, ref) && !OnlySpace(ref)
    ensures Placing(b, ref, lines) == Ok((b, id))
  {
    PlaceDecided(b, ref, lines);
    OneOrderPerRef(b, ref, id, Placing(b, ref, lines).value.1);
  }

  /** In every run a reference, once placed, is answered with the first order, which stays as it is. */
  lemma RepeatReturnsTheFirst(bs: seq<Book>, actions: seq<Action>, i: nat, j: nat, ref: string,
                              lines: seq<Line>, others: seq<Line>)
    requires IsRun(bs, actions) && i < j < |bs| && actions[i] == Place(ref, lines)
    requires Placing(bs[i], ref, lines).Ok?
    ensures Placing(bs[j], ref, others) == Ok((bs[j], Placing(bs[i], ref, lines).value.1))
  {
    var id := Placing(bs[i], ref, lines).value.1;
    StripsToNothing(ref);
    PlacedHasRef(bs, actions, i, ref, lines);
    OrdersLast(bs, actions, i + 1, j, id);
    RunKeepsBook(bs, actions, j);
    KnownRefIsAnswered(bs[j], ref, others, id);
  }
}
