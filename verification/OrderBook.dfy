/**
 The reference order book of fixture m6 (scripts/bench/make_large_tasks.py): placing, cancelling
 and shipping orders against the inventory. Prices are not part of this model.
*/
module Orders {
  import opened Inventories
  import opened Stock
  import opened Text
  import opened Wrappers

  datatype Status = Open | Backordered | Shipped | Cancelled

  datatype OrderLine = OrderLine(sku: Sku, qty: nat, reserved: nat, backorder: nat)

  datatype Order = Order(ref: string, status: Status, lines: seq<OrderLine>)

  datatype Book = Book(store: Store, orders: map<OrderId, Order>, byRef: map<string, OrderId>, last: nat)

  ghost function Free(s: Store, sku: Sku): nat { Max(Available(s, sku), 0) }

  ghost predicate Lacking(s: Store, wanted: map<Sku, nat>, sku: Sku) {
    sku in wanted && Free(s, sku) < wanted[sku]
  }

  /** Something is short that must not be backordered. */
  ghost predicate Refused(s: Store, wanted: map<Sku, nat>) {
    exists sku :: Lacking(s, wanted, sku) && sku in s.products && !s.products[sku].backorderable
  }

  /** What can be reserved now of each SKU. */
  ghost function Budget(s: Store, wanted: map<Sku, nat>): map<Sku, nat> {
    map sku | sku in wanted :: Min(wanted[sku], Free(s, sku))
  }

  function Positive(m: map<Sku, nat>): map<Sku, nat> { map sku | sku in m && m[sku] > 0 :: m[sku] }

  /** Lines take from the budget in order; what a line does not get is backordered. */
  function Allocated(lines: seq<Line>, budget: map<Sku, nat>): seq<OrderLine> {
    if lines == [] then []
    else
      var l := lines[0];
      var take := Min(Max(l.qty, 0), At(budget, l.sku));
      [OrderLine(l.sku, Max(l.qty, 0), take, Max(l.qty, 0) - take)]
      + Allocated(lines[1..], budget[l.sku := At(budget, l.sku) - take])
  }

  /** What can be reserved of each SKU, and whether that leaves any of them short. */
  ghost function Planned(s: Store, wanted: map<Sku, nat>): Result<(map<Sku, nat>, bool), Error> {
    if Refused(s, wanted) then Err(InsufficientStock)
    else Ok((Budget(s, wanted), exists sku :: Lacking(s, wanted, sku)))
  }

  /** The order that `place_order` creates. */
  function NewOrder(ref: string, lines: seq<Line>, plan: (map<Sku, nat>, bool)): Order {
    Order(ref, if plan.1 then Backordered else Open, Allocated(lines, plan.0))
  }

  ghost function Placing(b: Book, ref: string, lines: seq<Line>): Result<(Book, OrderId), Error> {
    if Strip(ref) == "" then Err(Invalid)
    else if ref in b.byRef then Ok((b, b.byRef[ref]))
    else if lines == [] then Err(Invalid)
    else match LinesError(b.store, lines)
      case Some(e) => Err(e)
      case None =>
        var plan := Planned(b.store, Wanted(lines));
        if plan.Err? then Err(plan.error)
        else Ok((WithOrder(b, NewOrder(ref, lines, plan.value), Positive(plan.value.0)), b.last + 1))
  }

  /** The book with one more order, which holds `held`. */
  function WithOrder(b: Book, o: Order, held: map<Sku, nat>): Book {
    var id := b.last + 1;
    Book(b.store.(held := b.store.held[id := held]), b.orders[id := o], b.byRef[o.ref := id], id)
  }

  function Cancelling(b: Book, id: OrderId): Result<Book, Error> {
    if id !in b.orders then Err(UnknownOrder)
    else if b.orders[id].status == Shipped then Err(WrongState)
    else if b.orders[id].status == Cancelled then Ok(b)
    else Ok(b.(store := Released(b.store, id),
               orders := b.orders[id := b.orders[id].(status := Cancelled)]))
  }

  ghost function Shipping(b: Book, id: OrderId): Result<Book, Error> {
    if id !in b.orders then Err(UnknownOrder)
    else if b.orders[id].status != Open then Err(WrongState)
    else if !(HeldBy(b.store, id).Keys <= b.store.products.Keys) then Err(UnknownSku)
    else Ok(b.(store := Committed(b.store, id),
               orders := b.orders[id := b.orders[id].(status := Shipped)]))
  }

  // What every book keeps.

  function ReservedIn(lines: seq<OrderLine>, sku: Sku): nat {
    if lines == [] then 0
    else (if lines[0].sku == sku then lines[0].reserved else 0) + ReservedIn(lines[1..], sku)
  }

  function OrderedIn(lines: seq<OrderLine>, sku: Sku): nat {
    if lines == [] then 0
    else (if lines[0].sku == sku then lines[0].qty else 0) + OrderedIn(lines[1..], sku)
  }

  predicate Live(o: Order) { o.status in {Open, Backordered} }

  /** A live order holds exactly what its lines reserved, any other order holds nothing. */
  ghost predicate OrderKept(b: Book, id: OrderId)
    requires id in b.orders
  {
    var o := b.orders[id];
    && 1 <= id <= b.last
    && (forall l | l in o.lines :: l.reserved + l.backorder == l.qty)
    && (o.status == Open ==> forall l | l in o.lines :: l.backorder == 0)
    && (if Live(o) then forall sku :: At(HeldBy(b.store, id), sku) == ReservedIn(o.lines, sku)
        else id !in b.store.held)
    && o.ref in b.byRef && b.byRef[o.ref] == id
  }

  ghost predicate BookInv(b: Book) {
    && Valid(b.store)
    && b.store.held.Keys <= b.orders.Keys
    && (forall id | id in b.orders :: OrderKept(b, id))
    && (forall ref | ref in b.byRef :: b.byRef[ref] in b.orders && b.orders[b.byRef[ref]].ref == ref)
  }

  // Allocation.

  function Asked(lines: seq<Line>, sku: Sku): nat {
    if lines == [] then 0
    else (if lines[0].sku == sku then Max(lines[0].qty, 0) else 0) + Asked(lines[1..], sku)
  }

  lemma {:induction false} AskedIsWanted(lines: seq<Line>, sku: Sku)
    ensures At(Wanted(lines), sku) == Asked(lines, sku)
  {
    if lines != [] {
      var n := |lines| - 1;
      AskedIsWanted(lines[..n], sku);
      AskedAppend(lines[..n], lines[n], sku);
      assert lines[..n] + [lines[n]] == lines;
    }
  }

  lemma {:induction false} AskedAppend(lines: seq<Line>, l: Line, sku: Sku)
    ensures Asked(lines + [l], sku) == Asked(lines, sku) + (if l.sku == sku then Max(l.qty, 0) else 0)
  {
    if lines == [] {
      assert lines + [l] == [l];
    } else {
      assert (lines + [l])[1..] == lines[1..] + [l];
      AskedAppend(lines[1..], l, sku);
    }
  }

  /** Every line is split exactly, and together the lines take exactly what the budget allows. */
  lemma {:induction false} AllocationIsExact(lines: seq<Line>, budget: map<Sku, nat>, sku: Sku)
    ensures var ls := Allocated(lines, budget);
      && (forall l | l in ls :: l.reserved + l.backorder == l.qty)
      && ReservedIn(ls, sku) == Min(At(budget, sku), Asked(lines, sku))
      && OrderedIn(ls, sku) == Asked(lines, sku)
  {
    if lines != [] {
      var l := lines[0];
      var take := Min(Max(l.qty, 0), At(budget, l.sku));
      AllocationIsExact(lines[1..], budget[l.sku := At(budget, l.sku) - take], sku);
    }
  }

  /** If the budget covers everything asked for, nothing is backordered. */
  lemma {:induction false} FullBudget(lines: seq<Line>, budget: map<Sku, nat>)
    requires forall sku :: Asked(lines, sku) <= At(budget, sku)
    ensures forall l | l in Allocated(lines, budget) :: l.backorder == 0
  {
    if lines != [] {
      var l := lines[0];
      var take := Min(Max(l.qty, 0), At(budget, l.sku));
      var rest := budget[l.sku := At(budget, l.sku) - take];
      forall sku ensures Asked(lines[1..], sku) <= At(rest, sku) {
        assert Asked(lines, sku) <= At(budget, sku);
        assert Asked(lines, l.sku) <= At(budget, l.sku);
      }
      FullBudget(lines[1..], rest);
    }
  }

  // Steps keep the book.

  lemma SameStockKeepsValid(s: Store, s': Store)
    requires Valid(s) && s'.products == s.products && s'.stock == s.stock && s'.log == s.log
    requires forall o | o in s'.held :: s'.held[o].Keys <= s.products.Keys
    ensures Valid(s')
  {
    forall sku: Sku, w: Warehouse ensures LevelIsLogged(s', sku, w) {
      assert LevelIsLogged(s, sku, w);
    }
  }

  /** A new order's lines, and what it reserves, agree with each other and with the request. */
  lemma NewOrderLines(s: Store, lines: seq<Line>, sku: Sku)
    ensures var budget := Budget(s, Wanted(lines));
      && ReservedIn(Allocated(lines, budget), sku) == At(Positive(budget), sku)
      && OrderedIn(Allocated(lines, budget), sku) == At(Wanted(lines), sku)
      && At(Positive(budget), sku) == Min(At(Wanted(lines), sku), Free(s, sku))
  {
    AllocationIsExact(lines, Budget(s, Wanted(lines)), sku);
    AskedIsWanted(lines, sku);
  }

  lemma NewOrderStatus(s: Store, lines: seq<Line>)
    ensures var ls := Allocated(lines, Budget(s, Wanted(lines)));
      && (forall l | l in ls :: l.reserved + l.backorder == l.qty)
      && (!(exists sku :: Lacking(s, Wanted(lines), sku)) ==> forall l | l in ls :: l.backorder == 0)
  {
    var budget := Budget(s, Wanted(lines));
    AllocationIsExact(lines, budget, 0);
    if !exists sku :: Lacking(s, Wanted(lines), sku) {
      forall sku ensures Asked(lines, sku) <= At(budget, sku) {
        AskedIsWanted(lines, sku);
        assert !Lacking(s, Wanted(lines), sku);
      }
      FullBudget(lines, budget);
    }
  }

  /** What a new order's lines have to say. */
  ghost predicate Consistent(o: Order, held: map<Sku, nat>) {
    && Live(o)
    && (forall l | l in o.lines :: l.reserved + l.backorder == l.qty)
    && (o.status == Open ==> forall l | l in o.lines :: l.backorder == 0)
    && (forall sku :: At(held, sku) == ReservedIn(o.lines, sku))
  }

  lemma WithOrderKeepsBook(b: Book, o: Order, held: map<Sku, nat>)
    requires BookInv(b) && o.ref !in b.byRef && held.Keys <= b.store.products.Keys
    requires Consistent(o, held)
    ensures BookInv(WithOrder(b, o, held))
  {
    var b', id := WithOrder(b, o, held), b.last + 1;
    NextIdIsFresh(b);
    SameStockKeepsValid(b.store, b'.store);
    forall x | x in b'.orders ensures OrderKept(b', x) {
      if x != id {
        assert OrderKept(b, x);
        assert HeldBy(b'.store, x) == HeldBy(b.store, x);
      }
    }
  }

  lemma NextIdIsFresh(b: Book)
    requires BookInv(b)
    ensures b.last + 1 !in b.orders && b.last + 1 !in b.store.held
  {
    forall id | id in b.orders ensures id <= b.last {
      assert OrderKept(b, id);
    }
  }

  lemma WithOrderTakes(b: Book, o: Order, held: map<Sku, nat>, sku: Sku)
    requires BookInv(b)
    ensures var s := WithOrder(b, o, held).store;
      && OnHand(s, sku) == OnHand(b.store, sku)
      && Available(s, sku) == Available(b.store, sku) - At(held, sku)
  {
    NextIdIsFresh(b);
    HoldFresh(b.store, b.last + 1, held, sku);
    assert Levels(WithOrder(b, o, held).store, sku) == Levels(b.store, sku);
  }

  lemma WithOrderKeepsCovered(b: Book, o: Order, held: map<Sku, nat>)
    requires BookInv(b) && Covered(b.store)
    requires forall sku :: At(held, sku) <= Free(b.store, sku)
    ensures Covered(WithOrder(b, o, held).store)
  {
    var s := WithOrder(b, o, held).store;
    forall sku ensures CoveredAt(s, sku) {
      assert CoveredAt(b.store, sku) && At(held, sku) <= Free(b.store, sku);
      WithOrderTakes(b, o, held, sku);
    }
  }

  lemma NewOrderConsistent(s: Store, ref: string, lines: seq<Line>)
    requires Planned(s, Wanted(lines)).Ok?
    ensures var plan := Planned(s, Wanted(lines)).value;
      && Consistent(NewOrder(ref, lines, plan), Positive(plan.0))
      && forall sku :: At(Positive(plan.0), sku) <= Free(s, sku)
  {
    var plan := Planned(s, Wanted(lines)).value;
    NewOrderStatus(s, lines);
    forall sku
      ensures At(Positive(plan.0), sku) == ReservedIn(NewOrder(ref, lines, plan).lines, sku)
      ensures At(Positive(plan.0), sku) <= Free(s, sku)
    {
      NewOrderLines(s, lines, sku);
    }
  }

  lemma PlaceKeepsBook(b: Book, ref: string, lines: seq<Line>)
    requires BookInv(b)
    ensures Placing(b, ref, lines).Ok? ==>
      && BookInv(Placing(b, ref, lines).value.0)
      && (Covered(b.store) ==> Covered(Placing(b, ref, lines).value.0.store))
  {
    if Placing(b, ref, lines).Ok? && ref !in b.byRef {
      var plan := Planned(b.store, Wanted(lines)).value;
      var o, held := NewOrder(ref, lines, plan), Positive(plan.0);
      WantedKnown(b.store, lines);
      NewOrderConsistent(b.store, ref, lines);
      WithOrderKeepsBook(b, o, held);
      if Covered(b.store) {
        WithOrderKeepsCovered(b, o, held);
      }
    }
  }

  /** A placed order asks for what its lines ask for, and reserves as much of it as is free. */
  lemma PlaceReservesWhatIsFree(b: Book, ref: string, lines: seq<Line>, sku: Sku)
    requires BookInv(b) && ref !in b.byRef
    ensures Placing(b, ref, lines).Ok? ==>
      var (b', id) := Placing(b, ref, lines).value;
      && id !in b.orders && id in b'.orders
      && OrderedIn(b'.orders[id].lines, sku) == Asked(lines, sku)
      && ReservedIn(b'.orders[id].lines, sku) == Min(Asked(lines, sku), Free(b.store, sku))
      && Available(b'.store, sku) == Available(b.store, sku) - ReservedIn(b'.orders[id].lines, sku)
  {
    if Placing(b, ref, lines).Ok? {
      var (b', id) := Placing(b, ref, lines).value;
      NewOrderLines(b.store, lines, sku);
      AskedIsWanted(lines, sku);
      NextIdIsFresh(b);
      WithOrderTakes(b, b'.orders[id], b'.store.held[id], sku);
    }
  }

  lemma OtherOrdersKept(b: Book, b': Book, id: OrderId)
    requires BookInv(b) && id in b.orders && Valid(b'.store)
    requires b'.byRef == b.byRef && b'.last == b.last
    requires b'.store.held == b.store.held - {id}
    requires exists status | status in {Shipped, Cancelled} ::
      b'.orders == b.orders[id := b.orders[id].(status := status)]
    ensures BookInv(b')
  {
    forall o | o in b'.orders ensures OrderKept(b', o) {
      assert OrderKept(b, o);
      if o != id {
        assert HeldBy(b'.store, o) == HeldBy(b.store, o);
      }
    }
  }

  lemma CancelKeepsBook(b: Book, id: OrderId)
    requires BookInv(b) && Cancelling(b, id).Ok?
    ensures BookInv(Cancelling(b, id).value)
    ensures Covered(b.store) ==> Covered(Cancelling(b, id).value.store)
  {
    if b.orders[id].status != Cancelled {
      ReleaseKeepsValid(b.store, id);
      OtherOrdersKept(b, Cancelling(b, id).value, id);
      if Covered(b.store) {
        ReleaseKeepsCovered(b.store, id);
      }
    }
  }

  lemma ShipKeepsBook(b: Book, id: OrderId)
    requires BookInv(b) && Shipping(b, id).Ok?
    ensures BookInv(Shipping(b, id).value)
    ensures Covered(b.store) ==> Covered(Shipping(b, id).value.store)
  {
    CommitKeepsValid(b.store, id);
    OtherOrdersKept(b, Shipping(b, id).value, id);
    if Covered(b.store) {
      CommitKeepsCovered(b.store, id);
    }
  }

  /** On a covered stock, shipping an order sells exactly what was ordered, of every SKU. */
  lemma ShipSellsTheOrder(b: Book, id: OrderId, sku: Sku)
    requires BookInv(b) && Covered(b.store) && Shipping(b, id).Ok?
    ensures OnHand(Shipping(b, id).value.store, sku) ==
      OnHand(b.store, sku) - OrderedIn(b.orders[id].lines, sku)
    ensures Available(Shipping(b, id).value.store, sku) == Available(b.store, sku)
  {
    CommitSellsHeld(b.store, id, sku);
    assert OrderKept(b, id);
    NothingBackordered(b.orders[id].lines, sku);
  }

  lemma {:induction false} NothingBackordered(lines: seq<OrderLine>, sku: Sku)
    requires forall l | l in lines :: l.reserved + l.backorder == l.qty && l.backorder == 0
    ensures ReservedIn(lines, sku) == OrderedIn(lines, sku)
  {
    if lines != [] {
      assert lines[0] in lines;
      NothingBackordered(lines[1..], sku);
    }
  }

  /** Cancelling an order makes available again exactly what its lines had reserved. */
  lemma CancelReturnsTheOrder(b: Book, id: OrderId, sku: Sku)
    requires BookInv(b) && Cancelling(b, id).Ok?
    ensures Available(Cancelling(b, id).value.store, sku) == Available(b.store, sku)
      + (if Live(b.orders[id]) then ReservedIn(b.orders[id].lines, sku) else 0)
  {
    assert OrderKept(b, id);
    if b.orders[id].status != Cancelled {
      ReleaseEffect(b.store, id, sku);
    }
  }

  // Runs.

  datatype Action =
    | AddProduct(sku: Option<Sku>, cents: Option<int>, backorderable: bool)
    | Adjust(asku: Sku, delta: Option<int>, reason: Reason, warehouse: Warehouse)
    | Place(ref: string, lines: seq<Line>)
    | Cancel(id: OrderId)
    | Ship(sid: OrderId)

  /** An action that is refused changes nothing. */
  ghost function After(b: Book, a: Action): Book {
    match a
    case AddProduct(sku, cents, backorderable) =>
      (match Added(b.store, sku, cents, backorderable) case Ok(s) => b.(store := s) case Err(_) => b)
    case Adjust(sku, delta, reason, w) =>
      (match Adjusting(b.store, sku, delta, reason, w) case Ok(s) => b.(store := s) case Err(_) => b)
    case Place(ref, lines) =>
      (match Placing(b, ref, lines) case Ok((b', _)) => b' case Err(_) => b)
    case Cancel(id) => (match Cancelling(b, id) case Ok(b') => b' case Err(_) => b)
    case Ship(id) => (match Shipping(b, id) case Ok(b') => b' case Err(_) => b)
  }

  /** An adjustment that does not take what is already reserved. */
  ghost predicate Affordable(b: Book, a: Action) {
    a.Adjust? && Adjusting(b.store, a.asku, a.delta, a.reason, a.warehouse).Ok? ==>
      -a.delta.value <= Available(b.store, a.asku)
  }

  const EMPTY := Book(Store(map[], map[], map[], []), map[], map[], 0)

  ghost predicate IsRun(bs: seq<Book>, actions: seq<Action>) {
    && |bs| == |actions| + 1 && bs[0] == EMPTY
    && forall i | 0 <= i < |actions| :: bs[i + 1] == After(bs[i], actions[i])
  }

  lemma ActionKeepsBook(b: Book, a: Action)
    requires BookInv(b)
    ensures BookInv(After(b, a))
    ensures Covered(b.store) ==> (Covered(After(b, a).store) <==> Affordable(b, a))
  {
    match a
    case AddProduct(sku, cents, backorderable) =>
      if Added(b.store, sku, cents, backorderable).Ok? {
        AddKeepsValid(b.store, sku, cents, backorderable);
        StoreChangeKeepsBook(b, Added(b.store, sku, cents, backorderable).value);
      }
    case Adjust(sku, delta, reason, w) =>
      if Adjusting(b.store, sku, delta, reason, w).Ok? {
        AdjustKeepsValid(b.store, sku, delta.value, reason, w);
        StoreChangeKeepsBook(b, Adjusting(b.store, sku, delta, reason, w).value);
        if Covered(b.store) {
          AdjustKeepsCovered(b.store, sku, delta.value, reason, w);
        }
      }
    case Place(ref, lines) =>
      if Placing(b, ref, lines).Ok? {
        PlaceKeepsBook(b, ref, lines);
      }
    case Cancel(id) =>
      if Cancelling(b, id).Ok? {
        CancelKeepsBook(b, id);
      }
    case Ship(id) =>
      if Shipping(b, id).Ok? {
        ShipKeepsBook(b, id);
      }
  }

  lemma StoreChangeKeepsBook(b: Book, s: Store)
    requires BookInv(b) && Valid(s) && s.held == b.store.held
    ensures BookInv(b.(store := s))
  {
    forall id | id in b.orders ensures OrderKept(b.(store := s), id) {
      assert OrderKept(b, id);
      assert HeldBy(s, id) == HeldBy(b.store, id);
    }
  }

  lemma EmptyBook()
    ensures BookInv(EMPTY) && Covered(EMPTY.store)
  {
    forall sku: Sku, w: Warehouse ensures LevelIsLogged(EMPTY.store, sku, w) {
    }
    forall sku ensures CoveredAt(EMPTY.store, sku) {
      ReservedByNobody(sku);
    }
  }

  /**
   Every run from an empty warehouse keeps the book: each stock level is the sum of its logged
   changes and every order holds what its lines say. While no adjustment takes reserved stock,
   no SKU is ever reserved beyond its stock.
  */
  lemma {:induction false} RunKeepsBook(bs: seq<Book>, actions: seq<Action>, i: nat)
    requires IsRun(bs, actions) && i < |bs|
    ensures BookInv(bs[i])
    ensures (forall j | 0 <= j < i :: Affordable(bs[j], actions[j])) ==> Covered(bs[i].store)
  {
    if i == 0 {
      EmptyBook();
    } else {
      RunKeepsBook(bs, actions, i - 1);
      ActionKeepsBook(bs[i - 1], actions[i - 1]);
    }
  }

  /**
   Shipping sells of a SKU what was ordered exactly if that much is on hand; covered or not, the
   difference is what adjustments have taken of the reserved stock.
  */
  lemma ShipSellsTheOrderIff(b: Book, id: OrderId, sku: Sku)
    requires BookInv(b) && Shipping(b, id).Ok?
    ensures var sold, ordered := OnHand(b.store, sku) - OnHand(Shipping(b, id).value.store, sku), OrderedIn(b.orders[id].lines, sku);
      && (sold == ordered <==> ordered <= OnHand(b.store, sku))
      && sold == Min(ordered, OnHand(b.store, sku))
  {
    CommitEffect(b.store, id, sku);
    assert OrderKept(b, id);
    NothingBackordered(b.orders[id].lines, sku);
  }

  // The order book as the source writes it.

  /** What is positive in the budget, apart from the SKUs still to come. */
  ghost function PositiveBut(budget: map<Sku, nat>, rest: set<Sku>): map<Sku, nat> {
    map sku | sku in budget && sku !in rest && budget[sku] > 0 :: budget[sku]
  }

  lemma OneMoreLine(s: Store, lines: seq<Line>, l: Line)
    requires LinesError(s, lines).None? && l.sku in s.products && l.qty > 0
    ensures LinesError(s, lines + [l]).None?
    ensures Wanted(lines + [l]) == Wanted(lines)[l.sku := At(Wanted(lines), l.sku) + l.qty]
  {
    LinesErrorAppend(s, lines, l);
    WantedAppend(lines, l);
  }

  lemma WantedAppend(lines: seq<Line>, l: Line)
    ensures Wanted(lines + [l]) == Wanted(lines)[l.sku := At(Wanted(lines), l.sku) + Max(l.qty, 0)]
  {
    var all := lines + [l];
    assert all[..|all| - 1] == lines && all[|all| - 1] == l;
  }

  /** The lines, in any order, that ask for exactly the budget. */
  method AsLines(ghost s: Store, budget: map<Sku, nat>) returns (lines: seq<Line>)
    requires budget.Keys <= s.products.Keys
    ensures LinesError(s, lines).None? && Wanted(lines) == Positive(budget)
  {
    lines := [];
    var rest := budget.Keys;
    while rest != {}
      invariant rest <= budget.Keys
      invariant LinesError(s, lines).None? && Wanted(lines) == PositiveBut(budget, rest)
    {
      ghost var some := MemberOf(rest);
      var sku :| sku in rest;
      if budget[sku] > 0 {
        OneMoreLine(s, lines, Line(sku, budget[sku]));
        lines := lines + [Line(sku, budget[sku])];
      }
      rest := rest - {sku};
    }
  }

  method Allocate(lines: seq<Line>, budget: map<Sku, nat>) returns (placed: seq<OrderLine>)
    ensures placed == Allocated(lines, budget)
  {
    placed := [];
    var left: map<Sku, nat> := budget;
    assert lines[0..] == lines;
    for i := 0 to |lines|
      invariant placed + Allocated(lines[i..], left) == Allocated(lines, budget)
    {
      var l := lines[i];
      assert lines[i..][1..] == lines[i + 1..];
      var take: nat := Min(Max(l.qty, 0), At(left, l.sku));
      var remaining: nat := At(left, l.sku) - take;
      left := left[l.sku := remaining];
      placed := placed + [OrderLine(l.sku, Max(l.qty, 0), take, Max(l.qty, 0) - take)];
    }
  }

  /** `short` says whether a SKU seen so far lacks stock; each that does may be backordered. */
  ghost predicate LackingSoFar(s: Store, wanted: map<Sku, nat>, rest: set<Sku>, short: bool) {
    && (short <==> exists sku :: Lacking(s, wanted, sku) && sku !in rest)
    && (forall sku :: Lacking(s, wanted, sku) && sku !in rest && sku in s.products ==> s.products[sku].backorderable)
  }

  lemma NobodyYet(s: Store, wanted: map<Sku, nat>)
    ensures LackingSoFar(s, wanted, wanted.Keys, false)
    ensures Budget(s, wanted) - wanted.Keys == map[]
  {
  }

  lemma OneMoreSku(s: Store, wanted: map<Sku, nat>, rest: set<Sku>, short: bool, sku: Sku)
    requires LackingSoFar(s, wanted, rest, short) && sku in rest && sku in wanted
    requires sku in s.products && (Lacking(s, wanted, sku) ==> s.products[sku].backorderable)
    ensures LackingSoFar(s, wanted, rest - {sku}, short || Lacking(s, wanted, sku))
  {
    var rest' := rest - {sku};
    if short {
      var x :| Lacking(s, wanted, x) && x !in rest;
      assert x !in rest';
    }
  }

  lemma OneMoreEntry(m: map<Sku, nat>, rest: set<Sku>, sku: Sku, n: nat)
    requires sku in rest && sku in m && m[sku] == n
    ensures (m - rest)[sku := n] == m - (rest - {sku})
  {
  }

  lemma BudgetAt(s: Store, wanted: map<Sku, nat>, sku: Sku)
    requires sku in wanted
    ensures sku in Budget(s, wanted) && Budget(s, wanted)[sku] == Min(wanted[sku], Free(s, sku))
    ensures Budget(s, wanted).Keys == wanted.Keys
  {
  }

  lemma OneRefused(s: Store, wanted: map<Sku, nat>, sku: Sku)
    requires Lacking(s, wanted, sku) && sku in s.products && !s.products[sku].backorderable
    ensures Planned(s, wanted) == Err(InsufficientStock)
  {
  }

  lemma NobodyLeft(s: Store, wanted: map<Sku, nat>, budget: map<Sku, nat>, short: bool)
    requires LackingSoFar(s, wanted, {}, short) && budget == Budget(s, wanted) - {}
    ensures Planned(s, wanted) == Ok((budget, short))
  {
    assert budget == Budget(s, wanted);
    forall sku | Lacking(s, wanted, sku) && sku in s.products ensures s.products[sku].backorderable {
    }
  }

  lemma BudgetWithin(s: Store, wanted: map<Sku, nat>, sku: Sku)
    ensures sku in Positive(Budget(s, wanted)) ==> Positive(Budget(s, wanted))[sku] <= Available(s, sku)
  {
  }

  lemma BudgetNotShort(s: Store, wanted: map<Sku, nat>)
    ensures !Short(s, Positive(Budget(s, wanted)))
  {
    var budget := Positive(Budget(s, wanted));
    forall sku | sku in budget ensures budget[sku] <= Available(s, sku) {
      BudgetWithin(s, wanted, sku);
    }
  }

  lemma MergedWithNothing(m: map<Sku, nat>)
    ensures Merged(map[], m) == m
  {
  }

  /** Reserving what is free never fails, and gives a new order exactly that. */
  lemma BudgetIsFree(s: Store, o: OrderId, asked: seq<Line>, wanted: map<Sku, nat>)
    requires o !in s.held
    requires LinesError(s, asked).None? && Wanted(asked) == Positive(Budget(s, wanted))
    ensures Reserving(s, o, asked) == Ok(s.(held := s.held[o := Wanted(asked)]))
  {
    BudgetNotShort(s, wanted);
    MergedWithNothing(Wanted(asked));
  }

  class OrderBook {
    const inventory: Inventory
    var orders: map<OrderId, Order>
    var byRef: map<string, OrderId>
    var last: nat

    ghost function State(): Book
      reads this, inventory
    {
      Book(inventory.State(), orders, byRef, last)
    }

    ghost predicate Kept()
      reads this, inventory
    {
      BookInv(State())
    }

    constructor (inventory: Inventory)
      requires Valid(inventory.State()) && inventory.reservations == map[]
      ensures this.inventory == inventory && Kept()
      ensures State() == Book(inventory.State(), map[], map[], 0)
    {
      this.inventory := inventory;
      orders, byRef, last := map[], map[], 0;
    }

    method Plan(wanted: map<Sku, nat>) returns (r: Result<(map<Sku, nat>, bool), Error>)
      requires Valid(inventory.State()) && wanted.Keys <= inventory.products.Keys
      ensures r == Planned(inventory.State(), wanted)
    {
      var budget: map<Sku, nat>, short := map[], false;
      var rest := wanted.Keys;
      ghost var s := inventory.State();
      NobodyYet(s, wanted);
      while rest != {}
        invariant rest <= wanted.Keys
        invariant budget == Budget(s, wanted) - rest
        invariant LackingSoFar(s, wanted, rest, short)
      {
        ghost var some := MemberOf(rest);
        var sku :| sku in rest;
        ghost var before := short;
        var available := inventory.AvailableQty(sku);
        var free: nat := Max(available, 0);
        assert free == Free(s, sku);
        if wanted[sku] > free {
          assert Lacking(s, wanted, sku);
          if !inventory.products[sku].backorderable {
            OneRefused(s, wanted, sku);
            return Err(InsufficientStock);
          }
          short := true;
        }
        OneMoreSku(s, wanted, rest, before, sku);
        var least: nat := Min(wanted[sku], free);
        BudgetAt(s, wanted, sku);
        OneMoreEntry(Budget(s, wanted), rest, sku, least);
        budget := budget[sku := least];
        rest := rest - {sku};
      }
      NobodyLeft(s, wanted, budget, short);
      return Ok((budget, short));
    }

    method PlaceOrder(ref: string, lines: seq<Line>) returns (r: Result<OrderId, Error>)
      requires Kept()
      modifies this, inventory`reservations
      ensures Kept()
      ensures match Placing(old(State()), ref, lines)
              case Ok((b, id)) => State() == b && r == Ok(id)
              case Err(e) => State() == old(State()) && r == Err(e)
    {
      if Strip(ref) == "" {
        return Err(Invalid);
      }
      if ref in byRef {
        return Ok(byRef[ref]);
      }
      if lines == [] {
        return Err(Invalid);
      }
      var wanted := inventory.Ask(lines);
      if wanted.Err? {
        return Err(wanted.error);
      }
      WantedKnown(inventory.State(), lines);
      var plan := Plan(wanted.value);
      if plan.Err? {
        return Err(plan.error);
      }
      PlaceKeepsBook(State(), ref, lines);
      NextIdIsFresh(State());
      Record(ref, lines, plan.value.0, plan.value.1, wanted.value);
      return Ok(last);
    }

    /** Reserves the budget for a new order and books the order. */
    method Record(ref: string, lines: seq<Line>, budget: map<Sku, nat>, short: bool, ghost wanted: map<Sku, nat>)
      requires Valid(inventory.State()) && last + 1 !in inventory.reservations
      requires wanted.Keys <= inventory.products.Keys && budget == Budget(inventory.State(), wanted)
      modifies this, inventory`reservations
      ensures State() == WithOrder(old(State()), NewOrder(ref, lines, (budget, short)), Positive(budget))
    {
      ghost var before := inventory.State();
      last := last + 1;
      var asked := AsLines(before, budget);
      BudgetIsFree(before, last, asked, wanted);
      var done := inventory.Reserve(last, asked);
      var placed := Allocate(lines, budget);
      orders := orders[last := Order(ref, if short then Backordered else Open, placed)];
      byRef := byRef[ref := last];
    }

    method CancelOrder(id: OrderId) returns (r: Result<(), Error>)
      requires Kept()
      modifies this, inventory`reservations
      ensures Kept()
      ensures match Cancelling(old(State()), id)
              case Ok(b) => State() == b && r == Ok(())
              case Err(e) => State() == old(State()) && r == Err(e)
    {
      if id !in orders {
        return Err(UnknownOrder);
      }
      if orders[id].status == Shipped {
        return Err(WrongState);
      }
      if orders[id].status == Cancelled {
        return Ok(());
      }
      CancelKeepsBook(State(), id);
      var _ := inventory.Release(id);
      orders := orders[id := orders[id].(status := Cancelled)];
      return Ok(());
    }

    method ShipOrder(id: OrderId) returns (r: Result<(), Error>)
      requires Kept()
      modifies this, inventory
      ensures Kept()
      ensures match Shipping(old(State()), id)
              case Ok(b) => State() == b && r == Ok(())
              case Err(e) => State() == old(State()) && r == Err(e)
    {
      if id !in orders {
        return Err(UnknownOrder);
      }
      if orders[id].status != Open {
        return Err(WrongState);
      }
      ShipKeepsBook(State(), id);
      ghost var after := Shipping(State(), id).value;
      inventory.Commit(id);
      orders := orders[id := orders[id].(status := Shipped)];
      assert State() == after;
      return Ok(());
    }
  }
}
