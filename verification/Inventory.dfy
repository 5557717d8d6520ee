/** The inventory object of fixture m6 (scripts/bench/make_large_tasks.py), updated in place. */
module Inventories {
  import opened SetSums
  import opened Stock
  import opened Wrappers

  /** A name that is blank or no text is none, and so is a price that is no integer. */
  function Added(s: Store, sku: Option<Sku>, cents: Option<int>, backorderable: bool): Result<Store, Error> {
    if sku.None? then Err(Invalid)
    else if sku.value in s.products then Err(DuplicateProduct)
    else if cents.None? || cents.value < 0 then Err(Invalid)
    else Ok(s.(products := s.products[sku.value := Product(cents.value, backorderable)],
               stock := s.stock[sku.value := map[]]))
  }

  /** A delta that is no integer is none. */
  function Adjusting(s: Store, sku: Sku, delta: Option<int>, reason: Reason, w: Warehouse): Result<Store, Error> {
    if delta.Some? then Adjusted(s, sku, delta.value, reason, w)
    else if sku !in s.products then Err(UnknownSku)
    else if reason.UnknownReason? then Err(UnknownReasonGiven)
    else Err(Invalid)
  }

  lemma AddKeepsValid(s: Store, sku: Option<Sku>, cents: Option<int>, backorderable: bool)
    requires Valid(s) && Added(s, sku, cents, backorderable).Ok?
    ensures Valid(Added(s, sku, cents, backorderable).value)
    ensures Covered(s) <==> Covered(Added(s, sku, cents, backorderable).value)
  {
    var s' := Added(s, sku, cents, backorderable).value;
    assert forall x :: Levels(s', x) == Levels(s, x);
    forall x: Sku, w: Warehouse ensures LevelIsLogged(s', x, w) {
      assert LevelIsLogged(s, x, w);
    }
    forall x ensures CoveredAt(s', x) <==> CoveredAt(s, x) {
    }
  }

  class Inventory {
    var products: map<Sku, Product>
    var stock: map<Sku, map<Warehouse, nat>>
    var reservations: map<OrderId, map<Sku, nat>>
    var events: seq<Adjustment>

    ghost function State(): Store
      reads this
    {
      Store(products, stock, reservations, events)
    }

    constructor ()
      ensures State() == Store(map[], map[], map[], []) && Valid(State()) && Covered(State())
    {
      products, stock, reservations, events := map[], map[], map[], [];
      new;
      forall x: Sku, w: Warehouse ensures LevelIsLogged(State(), x, w) {
      }
      forall x ensures CoveredAt(State(), x) {
        ReservedByNobody(x);
      }
    }

    method AddProduct(sku: Option<Sku>, cents: Option<int>, backorderable: bool) returns (r: Result<(), Error>)
      requires Valid(State())
      modifies this
      ensures Valid(State())
      ensures match Added(old(State()), sku, cents, backorderable)
              case Ok(s) => State() == s && r == Ok(())
              case Err(e) => State() == old(State()) && r == Err(e)
    {
      if sku.None? {
        return Err(Invalid);
      }
      if sku.value in products {
        return Err(DuplicateProduct);
      }
      if cents.None? || cents.value < 0 {
        return Err(Invalid);
      }
      AddKeepsValid(State(), sku, cents, backorderable);
      products := products[sku.value := Product(cents.value, backorderable)];
      stock := stock[sku.value := map[]];
      return Ok(());
    }

    /** Changes one level and logs the change, or changes nothing. */
    method AdjustStock(sku: Sku, delta: Option<int>, reason: Reason, w: Warehouse) returns (r: Result<nat, Error>)
      requires Valid(State())
      modifies this
      ensures Valid(State())
      ensures match Adjusting(old(State()), sku, delta, reason, w)
              case Ok(s) => State() == s && r == Ok(Levels(s, sku)[w])
              case Err(e) => State() == old(State()) && r == Err(e)
    {
      if sku !in products {
        return Err(UnknownSku);
      }
      if reason.UnknownReason? {
        return Err(UnknownReasonGiven);
      }
      if delta.None? {
        return Err(Invalid);
      }
      var level := (if w in stock[sku] then stock[sku][w] else 0) + delta.value;
      if level < 0 {
        return Err(Invalid);
      }
      AdjustKeepsValid(State(), sku, delta.value, reason, w);
      ghost var after := Adjusted(State(), sku, delta.value, reason, w).value;
      var levels: map<Warehouse, nat> := stock[sku][w := level as nat];
      stock := stock[sku := levels];
      events := events + [Adjustment(sku, delta.value, reason, w)];
      assert State() == after;
      return Ok(level);
    }

    method OnHandQty(sku: Sku) returns (n: nat)
      requires sku in products && Valid(State())
      ensures n == OnHand(State(), sku)
    {
      n := 0;
      var m := stock[sku];
      var rest := m.Keys;
      while rest != {}
        invariant rest <= m.Keys
        invariant n + SumOver(rest, Quantity(m)) == Total(m)
      {
        ghost var some := MemberOf(rest);
        var w :| w in rest;
        SumRemove(rest, Quantity(m), w);
        n := n + m[w];
        rest := rest - {w};
      }
      SumEmpty(Quantity(m));
    }

    method ReservedQty(sku: Sku) returns (n: nat)
      ensures n == Reserved(reservations, sku)
    {
      n := 0;
      var rest := reservations.Keys;
      while rest != {}
        invariant rest <= reservations.Keys
        invariant n + SumOver(rest, HeldOf(reservations, sku)) == Reserved(reservations, sku)
      {
        ghost var some := MemberOf(rest);
        var o :| o in rest;
        SumRemove(rest, HeldOf(reservations, sku), o);
        n := n + At(reservations[o], sku);
        rest := rest - {o};
      }
      SumEmpty(HeldOf(reservations, sku));
    }

    method AvailableQty(sku: Sku) returns (n: int)
      requires sku in products && Valid(State())
      ensures n == Available(State(), sku)
    {
      var have := OnHandQty(sku);
      var taken := ReservedQty(sku);
      n := have as int - taken as int;
    }

    /** What the lines ask for of each SKU, if each is a positive quantity of a known product. */
    method Ask(lines: seq<Line>) returns (r: Result<map<Sku, nat>, Error>)
      ensures r == var e := LinesError(State(), lines); if e.Some? then Err(e.value) else Ok(Wanted(lines))
    {
      var wanted: map<Sku, nat> := map[];
      for i := 0 to |lines|
        invariant LinesError(State(), lines[..i]).None?
        invariant wanted == Wanted(lines[..i])
      {
        var l := lines[i];
        assert lines[..i + 1] == lines[..i] + [l];
        LinesErrorAppend(State(), lines[..i], l);
        LinesErrorPrefix(State(), lines, i + 1);
        if l.sku !in products {
          return Err(UnknownSku);
        }
        if l.qty <= 0 {
          return Err(Invalid);
        }
        wanted := wanted[l.sku := At(wanted, l.sku) + l.qty];
      }
      assert lines[..|lines|] == lines;
      return Ok(wanted);
    }

    method IsShort(wanted: map<Sku, nat>) returns (short: bool)
      requires Valid(State()) && wanted.Keys <= products.Keys
      ensures short <==> Short(State(), wanted)
    {
      var rest := wanted.Keys;
      while rest != {}
        invariant rest <= wanted.Keys
        invariant forall sku | sku in wanted && sku !in rest :: Available(State(), sku) >= wanted[sku]
      {
        ghost var some := MemberOf(rest);
        var sku :| sku in rest;
        var free := AvailableQty(sku);
        if free < wanted[sku] {
          return true;
        }
        rest := rest - {sku};
      }
      return false;
    }

    /** Reserves every line for the order, or nothing. */
    method Reserve(o: OrderId, lines: seq<Line>) returns (r: Result<(), Error>)
      requires Valid(State())
      modifies this`reservations
      ensures Valid(State())
      ensures match Reserving(old(State()), o, lines)
              case Ok(s) => State() == s && r == Ok(())
              case Err(e) => State() == old(State()) && r == Err(e)
    {
      var wanted := Ask(lines);
      if wanted.Err? {
        return Err(wanted.error);
      }
      WantedKnown(State(), lines);
      var short := IsShort(wanted.value);
      if short {
        return Err(InsufficientStock);
      }
      ReserveKeepsValid(State(), o, lines);
      var held := if o in reservations then reservations[o] else map[];
      reservations := reservations[o := Merged(held, wanted.value)];
      return Ok(());
    }

    /** Gives up the order's reservation, if it has one. */
    method Release(o: OrderId) returns (held: map<Sku, nat>)
      requires Valid(State())
      modifies this`reservations
      ensures Valid(State()) && State() == Released(old(State()), o)
      ensures held == HeldBy(old(State()), o)
    {
      ReleaseKeepsValid(State(), o);
      held := if o in reservations then reservations[o] else map[];
      reservations := reservations - {o};
    }

    /** Turns the order's reservation into sales. */
    method Commit(o: OrderId)
      requires Valid(State())
      modifies this
      ensures Valid(State()) && State() == Committed(old(State()), o)
    {
      var h := Release(o);
      var items := Sorted(h.Keys);
      AscendingFacts(h.Keys);
      ghost var s0 := State();
      for i := 0 to |items|
        invariant Valid(State()) && State().products == s0.products
        invariant Sold(State(), items[i..], h) == Sold(s0, items, h)
      {
        var x := items[i];
        assert items[i..][1..] == items[i + 1..];
        SellFrom(x, h[x]);
      }
    }

    /** Takes the quantity from the warehouses in name order, as far as it goes. */
    method SellFrom(sku: Sku, quantity: nat)
      requires Valid(State()) && sku in products
      modifies this
      ensures Valid(State())
      ensures State() == Drained(old(State()), sku, quantity, Ascending(Levels(old(State()), sku).Keys))
    {
      var ws := Sorted(stock[sku].Keys);
      var qty: nat := quantity;
      for j := 0 to |ws|
        invariant Valid(State()) && sku in products
        invariant Drained(State(), sku, qty, ws[j..]) == Drained(old(State()), sku, quantity, ws)
      {
        var w := ws[j];
        ghost var s := State();
        var take := Min(qty, if w in stock[sku] then stock[sku][w] else 0);
        DrainOne(s, sku, qty, ws, j);
        if take != 0 {
          var _ := AdjustStock(sku, Some(-take), Sale, w);
          qty := qty - take;
        }
      }
    }
  }

  /** The next warehouse, and then those behind it. */
  lemma DrainOne(s: Store, sku: Sku, qty: nat, ws: seq<Warehouse>, j: nat)
    requires Valid(s) && sku in s.products && j < |ws|
    ensures var take := Min(qty, At(Levels(s, sku), ws[j]));
      && sku in s.stock && At(Levels(s, sku), ws[j]) == (if ws[j] in s.stock[sku] then s.stock[sku][ws[j]] else 0)
      && (take == 0 ==> Drained(s, sku, qty, ws[j..]) == Drained(s, sku, qty, ws[j + 1..]))
      && (take != 0 ==>
            && Adjusting(s, sku, Some(-take), Sale, ws[j]).Ok?
            && var s' := Adjusting(s, sku, Some(-take), Sale, ws[j]).value;
            s'.products == s.products && Drained(s, sku, qty, ws[j..]) == Drained(s', sku, qty - take, ws[j + 1..]))
  {
    assert ws[j..][1..] == ws[j + 1..];
  }

  /** A prefix with an error already decides the error. */
  lemma {:induction false} LinesErrorPrefix(s: Store, lines: seq<Line>, i: nat)
    requires i <= |lines|
    ensures LinesError(s, lines[..i]).Some? ==> LinesError(s, lines) == LinesError(s, lines[..i])
  {
    if i > 0 {
      assert lines[..i][1..] == lines[1..][..i - 1];
      LinesErrorPrefix(s, lines[1..], i - 1);
    }
  }
}
