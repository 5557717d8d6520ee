/**
 How an order of fixture m6 can be shipped short (scripts/bench/make_large_tasks.py).

 The book lets an adjustment take stock that is reserved. One product is added and received, all
 of it is ordered and reserved, some is lost, and the order is shipped: it sells only what is left.
 Each step is taken by its own lemma, and the run from the empty book is put together from them.
*/
module ShortShipment {
  import opened Inventories
  import opened Orders
  import opened Stock
  import opened Text
  import opened Wrappers

  /** A book that a run of these actions ends in. */
  ghost predicate ReachedBy(actions: seq<Action>, b: Book) {
    exists bs :: IsRun(bs, actions) && bs[|actions|] == b
  }

  lemma ReachOn(actions: seq<Action>, b: Book, a: Action, b': Book)
    requires ReachedBy(actions, b) && b' == After(b, a)
    ensures ReachedBy(actions + [a], b')
  {
    var bs :| IsRun(bs, actions) && bs[|actions|] == b;
    assert IsRun(bs + [b'], actions + [a]) && (bs + [b'])[|actions| + 1] == b';
  }

  lemma ReachByAdding(actions: seq<Action>, b: Book, a: Action)
    requires ReachedBy(actions, b) && a.AddProduct? && Added(b.store, a.sku, a.cents, a.backorderable).Ok?
    ensures ReachedBy(actions + [a], b.(store := Added(b.store, a.sku, a.cents, a.backorderable).value))
  {
    ReachOn(actions, b, a, b.(store := Added(b.store, a.sku, a.cents, a.backorderable).value));
  }

  lemma ReachByAdjusting(actions: seq<Action>, b: Book, a: Action)
    requires ReachedBy(actions, b) && a.Adjust? && a.delta.Some?
    requires Adjusted(b.store, a.asku, a.delta.value, a.reason, a.warehouse).Ok?
    ensures ReachedBy(actions + [a], b.(store := Adjusted(b.store, a.asku, a.delta.value, a.reason, a.warehouse).value))
  {
    ReachOn(actions, b, a, b.(store := Adjusted(b.store, a.asku, a.delta.value, a.reason, a.warehouse).value));
  }

  lemma ReachByPlacing(actions: seq<Action>, b: Book, a: Action)
    requires ReachedBy(actions, b) && a.Place? && Placing(b, a.ref, a.lines).Ok?
    ensures ReachedBy(actions + [a], Placing(b, a.ref, a.lines).value.0)
  {
    ReachOn(actions, b, a, Placing(b, a.ref, a.lines).value.0);
  }

  /** Only the first product, with this much of it and all of that in the first warehouse. */
  ghost predicate Holding(s: Store, qty: nat) {
    Valid(s) && s.products.Keys == {1} && OnHand(s, 1) == qty == At(Levels(s, 1), 1)
  }

  /** An open order for this much of it. */
  ghost predicate AwaitsShipping(b: Book, qty: nat) {
    BookInv(b) && 1 in b.orders && b.orders[1].status == Open && OrderedIn(b.orders[1].lines, 1) == qty
  }

  lemma NewProduct() returns (s: Store)
    ensures Added(EMPTY.store, Some(1), Some(100), false) == Ok(s) && Holding(s, 0) && s.held == map[]
  {
    s := Added(EMPTY.store, Some(1), Some(100), false).value;
    EmptyBook();
    AddKeepsValid(EMPTY.store, Some(1), Some(100), false);
    TotalZero(Levels(s, 1));
  }

  /** Receiving or losing a quantity. */
  lemma Changed(s: Store, qty: nat, delta: int, reason: Reason)
    requires Holding(s, qty) && qty + delta >= 0 && !reason.UnknownReason?
    ensures Adjusted(s, 1, delta, reason, 1).Ok?
    ensures var s' := Adjusted(s, 1, delta, reason, 1).value; Holding(s', qty + delta) && s'.held == s.held
  {
    AdjustKeepsValid(s, 1, delta, reason, 1);
    AdjustEffect(s, 1, delta, reason, 1);
  }

  /** The product and its delivery. */
  lemma AfterDelivery(qty: nat) returns (actions: seq<Action>, s: Store)
    ensures Holding(s, qty) && s.held == map[] && ReachedBy(actions, EMPTY.(store := s))
  {
    var add, receive := AddProduct(Some(1), Some(100), false), Adjust(1, Some(qty), Receipt, 1);
    assert IsRun([EMPTY], []) && [EMPTY][0] == EMPTY;
    var s0 := NewProduct();
    ReachByAdding([], EMPTY, add);
    Changed(s0, 0, qty, Receipt);
    ReachByAdjusting([add], EMPTY.(store := s0), receive);
    s := Adjusted(s0, 1, qty, Receipt, 1).value;
    actions := [add] + [receive];
  }

  lemma OneLine(s: Store, qty: nat)
    requires s.products.Keys == {1} && qty > 0 && Available(s, 1) == qty
    ensures Asked([Line(1, qty)], 1) == qty && Wanted([Line(1, qty)]) == map[1 := qty]
    ensures LinesError(s, [Line(1, qty)]) == None
    ensures forall sku :: !Lacking(s, Wanted([Line(1, qty)]), sku)
  {
    assert [Line(1, qty)][1..] == [] && [Line(1, qty)][..0] == [];
  }

  lemma PlannedInFull(s: Store, wanted: map<Sku, nat>)
    requires forall sku :: !Lacking(s, wanted, sku)
    ensures Planned(s, wanted) == Ok((Budget(s, wanted), false))
  {
    assert !Refused(s, wanted);
  }

  lemma PlacingInFull(b: Book, ref: string, lines: seq<Line>, plan: (map<Sku, nat>, bool))
    requires Strip(ref) != "" && ref !in b.byRef && lines != []
    requires LinesError(b.store, lines) == None && Planned(b.store, Wanted(lines)) == Ok(plan)
    ensures Placing(b, ref, lines) == Ok((WithOrder(b, NewOrder(ref, lines, plan), Positive(plan.0)), b.last + 1))
  {
  }

  /** An order that nothing is short for is open. */
  lemma PlacedInFull(b: Book, ref: string, lines: seq<Line>) returns (b': Book)
    requires BookInv(b) && Strip(ref) != "" && ref !in b.byRef && lines != []
    requires LinesError(b.store, lines) == None && forall sku :: !Lacking(b.store, Wanted(lines), sku)
    ensures Placing(b, ref, lines) == Ok((b', b.last + 1)) && BookInv(b')
    ensures b'.store.stock == b.store.stock && b'.store.products == b.store.products
    ensures b.last + 1 in b'.orders && b'.orders[b.last + 1].status == Open
  {
    PlannedInFull(b.store, Wanted(lines));
    var plan := (Budget(b.store, Wanted(lines)), false);
    PlacingInFull(b, ref, lines, plan);
    PlaceKeepsBook(b, ref, lines);
    b' := WithOrder(b, NewOrder(ref, lines, plan), Positive(plan.0));
  }

  /** An order for all there is. */
  lemma Ordered(s: Store, lines: seq<Line>, qty: nat) returns (b: Book)
    requires qty > 0 && Holding(s, qty) && s.held == map[] && lines == [Line(1, qty)]
    ensures Placing(EMPTY.(store := s), "r", lines).Ok?
    ensures b == Placing(EMPTY.(store := s), "r", lines).value.0
    ensures Holding(b.store, qty) && AwaitsShipping(b, qty)
  {
    var b0 := EMPTY.(store := s);
    EmptyBook();
    StoreChangeKeepsBook(EMPTY, s);
    ReservedByNobody(1);
    OneLine(s, qty);
    assert Strip("r") == "r";
    b := PlacedInFull(b0, "r", lines);
    PlaceReservesWhatIsFree(b0, "r", lines, 1);
    SameShelves(s, b.store, qty);
  }

  lemma SameShelves(s: Store, s': Store, qty: nat)
    requires Holding(s, qty) && Valid(s') && s'.stock == s.stock && s'.products == s.products
    ensures Holding(s', qty)
  {
  }

  lemma AfterOrder(qty: nat) returns (actions: seq<Action>, b: Book)
    requires qty > 0
    ensures ReachedBy(actions, b) && Holding(b.store, qty) && AwaitsShipping(b, qty)
  {
    var before, s := AfterDelivery(qty);
    b := Ordered(s, [Line(1, qty)], qty);
    ReachByPlacing(before, EMPTY.(store := s), Place("r", [Line(1, qty)]));
    actions := before + [Place("r", [Line(1, qty)])];
  }

  lemma SoldShort(b: Book, qty: nat, left: nat)
    requires Holding(b.store, left) && AwaitsShipping(b, qty) && left < qty
    ensures Shipping(b, 1).Ok?
    ensures OnHand(b.store, 1) - OnHand(Shipping(b, 1).value.store, 1) == left
  {
    assert OrderKept(b, 1);
    ShipSellsTheOrderIff(b, 1, 1);
  }

  /**
   A run to a book in which an open order has more reserved than is on hand, because stock was
   lost after it was placed: shipping it then sells less than was ordered, for every such loss.
  */
  lemma ShipsShort(qty: nat, lost: int) returns (actions: seq<Action>, b: Book)
    requires 0 < lost <= qty
    ensures ReachedBy(actions, b) && AwaitsShipping(b, qty) && Shipping(b, 1).Ok?
    ensures OnHand(b.store, 1) == qty - lost
    ensures OnHand(b.store, 1) - OnHand(Shipping(b, 1).value.store, 1) == qty - lost
  {
    var before, b0 := AfterOrder(qty);
    var a := Adjust(1, Some(-lost), Damage, 1);
    Changed(b0.store, qty, -lost, Damage);
    ReachByAdjusting(before, b0, a);
    var s := Adjusted(b0.store, 1, -lost, Damage, 1).value;
    StoreChangeKeepsBook(b0, s);
    actions, b := before + [a], b0.(store := s);
    SoldShort(b, qty, qty - lost);
  }
}
