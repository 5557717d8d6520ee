/**
 The reference inventory of fixture m6 (scripts/bench/make_large_tasks.py) as values.

 SKUs and warehouses are numbered as their names sort. What each operation does is a function on
 stock levels, reservations and the log of adjustments, and the lemmas say what that means for the
 stock and the reservations of each SKU. Module Inventories has the object itself.
*/
module Stock {
  import opened SetSums
  import opened Wrappers

  type Sku = int
  type Warehouse = int
  type OrderId = int

  datatype Reason = Receipt | Sale | Return | Damage | Correction | Transfer | UnknownReason

  datatype Error = UnknownSku | UnknownReasonGiven | Invalid | InsufficientStock
                 | DuplicateProduct | UnknownOrder | WrongState

  datatype Product = Product(unitCents: nat, backorderable: bool)

  datatype Adjustment = Adjustment(sku: Sku, delta: int, reason: Reason, warehouse: Warehouse)

  datatype Line = Line(sku: Sku, qty: int)

  datatype Store = Store(products: map<Sku, Product>, stock: map<Sku, map<Warehouse, nat>>,
                         held: map<OrderId, map<Sku, nat>>, log: seq<Adjustment>)

  function Min(a: int, b: int): int { if a < b then a else b }
  function Max(a: int, b: int): int { if a < b then b else a }

  function At(m: map<int, nat>, key: int): nat { if key in m then m[key] else 0 }

  function Levels(s: Store, sku: Sku): map<Warehouse, nat> {
    if sku in s.stock then s.stock[sku] else map[]
  }

  function HeldBy(s: Store, order: OrderId): map<Sku, nat> {
    if order in s.held then s.held[order] else map[]
  }

  ghost function Quantity(m: map<int, nat>): int -> nat { key => At(m, key) }

  ghost function Total(m: map<int, nat>): nat { SumOver(m.Keys, Quantity(m)) }

  ghost function OnHand(s: Store, sku: Sku): nat { Total(Levels(s, sku)) }

  ghost function HeldOf(held: map<OrderId, map<Sku, nat>>, sku: Sku): OrderId -> nat {
    o => if o in held then At(held[o], sku) else 0
  }

  ghost function Reserved(held: map<OrderId, map<Sku, nat>>, sku: Sku): nat {
    SumOver(held.Keys, HeldOf(held, sku))
  }

  ghost function Available(s: Store, sku: Sku): int { OnHand(s, sku) - Reserved(s.held, sku) }

  /** What the log says about one stock level. */
  function Logged(log: seq<Adjustment>, sku: Sku, w: Warehouse): int {
    if log == [] then 0
    else
      var e := log[|log| - 1];
      Logged(log[..|log| - 1], sku, w) + (if e.sku == sku && e.warehouse == w then e.delta else 0)
  }

  predicate LevelIsLogged(s: Store, sku: Sku, w: Warehouse) {
    At(Levels(s, sku), w) == Logged(s.log, sku, w)
  }

  ghost predicate Valid(s: Store) {
    && s.stock.Keys == s.products.Keys
    && (forall sku: Sku, w: Warehouse :: LevelIsLogged(s, sku, w))
    && (forall o | o in s.held :: s.held[o].Keys <= s.products.Keys)
  }

  // Changing one stock level.

  function Adjusted(s: Store, sku: Sku, delta: int, reason: Reason, w: Warehouse): Result<Store, Error>
  {
    if sku !in s.products then Err(UnknownSku)
    else if reason.UnknownReason? then Err(UnknownReasonGiven)
    else
      var level := At(Levels(s, sku), w) + delta;
      if level < 0 then Err(Invalid)
      else Ok(s.(stock := s.stock[sku := Levels(s, sku)[w := level]],
                 log := s.log + [Adjustment(sku, delta, reason, w)]))
  }

  lemma TotalChange(m: map<int, nat>, key: int, value: nat)
    ensures Total(m[key := value]) == Total(m) - At(m, key) + value
  {
    var m' := m[key := value];
    if key in m {
      assert m'.Keys == m.Keys;
      SumChange(m.Keys, Quantity(m), Quantity(m'), key);
    } else {
      assert m'.Keys == m.Keys + {key};
      SumAdd(m.Keys, Quantity(m'), key);
      SumAgree(m.Keys, Quantity(m), Quantity(m'));
    }
  }

  /** Only the stock of `sku` and the log differ. */
  ghost predicate SameElsewhere(s: Store, s': Store, sku: Sku) {
    && s'.products == s.products && s'.held == s.held
    && forall x | x != sku :: Levels(s', x) == Levels(s, x)
  }

  lemma AdjustKeepsValid(s: Store, sku: Sku, delta: int, reason: Reason, w: Warehouse)
    requires Valid(s) && Adjusted(s, sku, delta, reason, w).Ok?
    ensures Valid(Adjusted(s, sku, delta, reason, w).value)
  {
    var s' := Adjusted(s, sku, delta, reason, w).value;
    assert s'.log[..|s'.log| - 1] == s.log;
    forall x: Sku, v: Warehouse ensures LevelIsLogged(s', x, v) {
      assert LevelIsLogged(s, x, v);
    }
  }

  lemma AdjustEffect(s: Store, sku: Sku, delta: int, reason: Reason, w: Warehouse)
    requires Adjusted(s, sku, delta, reason, w).Ok?
    ensures var s' := Adjusted(s, sku, delta, reason, w).value;
      SameElsewhere(s, s', sku) && OnHand(s', sku) == OnHand(s, sku) + delta
  {
    TotalChange(Levels(s, sku), w, At(Levels(s, sku), w) + delta);
  }

  // Selling: warehouses are drained in name order.

  ghost function Ascending(keys: set<int>): seq<int>
    decreases |keys|
  {
    if keys == {} then [] else [Least(keys)] + Ascending(keys - {Least(keys)})
  }

  lemma {:induction false} AscendingFacts(keys: set<int>)
    ensures forall x :: x in Ascending(keys) <==> x in keys
    ensures forall i, j | 0 <= i < j < |Ascending(keys)| :: Ascending(keys)[i] < Ascending(keys)[j]
    decreases |keys|
  {
    if keys != {} {
      var rest := keys - {Least(keys)};
      AscendingFacts(rest);
      forall j | 0 <= j < |Ascending(rest)| ensures Least(keys) < Ascending(rest)[j] {
        assert Ascending(rest)[j] in rest;
      }
    }
  }

  ghost function Least(keys: set<int>): (m: int)
    requires keys != {}
    ensures m in keys && forall x | x in keys :: m <= x
  {
    LeastExists(keys);
    var m :| m in keys && forall x | x in keys :: m <= x;
    m
  }

  lemma {:induction false} LeastExists(keys: set<int>)
    requires keys != {}
    ensures exists m :: m in keys && forall x | x in keys :: m <= x
    decreases |keys|
  {
    var x := MemberOf(keys);
    if keys - {x} != {} {
      LeastExists(keys - {x});
      var m :| m in keys - {x} && forall y | y in keys - {x} :: m <= y;
      var least := if x < m then x else m;
      forall y | y in keys ensures least <= y {
        assert y == x || y in keys - {x};
      }
    } else {
      assert keys == {x};
      assert x in keys && forall y | y in keys :: x <= y;
    }
  }

  method FindLeast(keys: set<int>) returns (m: int)
    requires keys != {}
    ensures m in keys && forall x | x in keys :: m <= x
  {
    ghost var some := MemberOf(keys);
    m :| m in keys;
    var rest := keys - {m};
    while rest != {}
      invariant rest <= keys && m in keys
      invariant forall x | x in keys && x !in rest :: m <= x
    {
      some := MemberOf(rest);
      var x :| x in rest;
      if x < m {
        m := x;
      }
      rest := rest - {x};
    }
  }

  method Sorted(keys: set<int>) returns (r: seq<int>)
    ensures r == Ascending(keys)
  {
    r := [];
    var rest := keys;
    while rest != {}
      invariant Ascending(keys) == r + Ascending(rest)
    {
      var m := FindLeast(rest);
      AscendingStep(rest, m);
      r := r + [m];
      rest := rest - {m};
    }
  }

  lemma AscendingStep(keys: set<int>, m: int)
    requires m in keys && forall x | x in keys :: m <= x
    ensures Ascending(keys) == [m] + Ascending(keys - {m})
  {
    assert Least(keys) == m;
  }

  /** Sells at most `qty` from one warehouse. */
  function DrainedOne(s: Store, sku: Sku, qty: nat, w: Warehouse): (Store, nat)
    requires sku in s.products
  {
    var take := Min(qty, At(Levels(s, sku), w));
    (if take == 0 then s else Adjusted(s, sku, -take, Sale, w).value, take)
  }

  function Drained(s: Store, sku: Sku, qty: nat, ws: seq<Warehouse>): (s': Store)
    requires sku in s.products
    ensures s'.products == s.products
    decreases |ws|
  {
    if ws == [] then s
    else
      var (s', take) := DrainedOne(s, sku, qty, ws[0]);
      Drained(s', sku, qty - take, ws[1..])
  }

  lemma DrainOneFrame(s: Store, sku: Sku, qty: nat, w: Warehouse)
    requires sku in s.products
    ensures Valid(s) ==> Valid(DrainedOne(s, sku, qty, w).0)
    ensures SameElsewhere(s, DrainedOne(s, sku, qty, w).0, sku)
  {
    var take := Min(qty, At(Levels(s, sku), w));
    if take != 0 && Valid(s) {
      AdjustKeepsValid(s, sku, -take, Sale, w);
    }
  }

  lemma {:induction false} DrainFrame(s: Store, sku: Sku, qty: nat, ws: seq<Warehouse>)
    requires sku in s.products
    ensures Valid(s) ==> Valid(Drained(s, sku, qty, ws))
    ensures SameElsewhere(s, Drained(s, sku, qty, ws), sku)
    decreases |ws|
  {
    if ws != [] {
      var (s', take) := DrainedOne(s, sku, qty, ws[0]);
      DrainOneFrame(s, sku, qty, ws[0]);
      DrainFrame(s', sku, qty - take, ws[1..]);
    }
  }

  /** The same on the levels alone. */
  function Taken(m: map<Warehouse, nat>, qty: nat, ws: seq<Warehouse>): map<Warehouse, nat>
    decreases |ws|
  {
    if ws == [] then m
    else
      var take := Min(qty, At(m, ws[0]));
      Taken(if take == 0 then m else m[ws[0] := At(m, ws[0]) - take], qty - take, ws[1..])
  }

  lemma {:induction false} DrainLevels(s: Store, sku: Sku, qty: nat, ws: seq<Warehouse>)
    requires sku in s.products
    ensures Levels(Drained(s, sku, qty, ws), sku) == Taken(Levels(s, sku), qty, ws)
    decreases |ws|
  {
    if ws != [] {
      var (s', take) := DrainedOne(s, sku, qty, ws[0]);
      DrainLevels(s', sku, qty - take, ws[1..]);
    }
  }

  lemma {:induction false} TakenTotal(m: map<Warehouse, nat>, qty: nat, ws: seq<Warehouse>)
    requires forall w | w !in ws :: At(m, w) == 0
    ensures Total(Taken(m, qty, ws)) == Total(m) - Min(qty, Total(m))
    decreases |ws|
  {
    if ws == [] {
      TotalZero(m);
    } else {
      var w := ws[0];
      var take := Min(qty, At(m, w));
      var m' := if take == 0 then m else m[w := At(m, w) - take];
      PartOfTotal(m, w);
      TotalChange(m, w, At(m, w) - take);
      if take == qty {
        TakenNothing(m', ws[1..]);
      } else {
        forall v | v !in ws[1..] ensures At(m', v) == 0 {
          assert v == w || v !in ws;
        }
        TakenTotal(m', qty - take, ws[1..]);
      }
    }
  }

  lemma {:induction false} TakenNothing(m: map<Warehouse, nat>, ws: seq<Warehouse>)
    ensures Taken(m, 0, ws) == m
    decreases |ws|
  {
    if ws != [] {
      TakenNothing(m, ws[1..]);
    }
  }

  lemma TotalZero(m: map<int, nat>)
    requires forall w :: At(m, w) == 0
    ensures Total(m) == 0
  {
    SumZero(m.Keys, Quantity(m));
  }

  lemma PartOfTotal(m: map<int, nat>, w: int)
    ensures At(m, w) <= Total(m)
  {
    TotalChange(m, w, 0);
  }

  // Shipping an order.

  ghost function Sold(s: Store, items: seq<Sku>, h: map<Sku, nat>): Store
    requires forall sku | sku in items :: sku in s.products
    decreases |items|
  {
    if items == [] then s
    else
      var s' := Drained(s, items[0], At(h, items[0]), Ascending(Levels(s, items[0]).Keys));
      Sold(s', items[1..], h)
  }

  lemma DrainAllEffect(s: Store, x: Sku, qty: nat, sku: Sku)
    requires x in s.products
    ensures OnHand(Drained(s, x, qty, Ascending(Levels(s, x).Keys)), sku) ==
      OnHand(s, sku) - (if sku == x then Min(qty, OnHand(s, sku)) else 0)
  {
    var ws := Ascending(Levels(s, x).Keys);
    AscendingFacts(Levels(s, x).Keys);
    DrainFrame(s, x, qty, ws);
    DrainLevels(s, x, qty, ws);
    TakenTotal(Levels(s, x), qty, ws);
    assert sku != x ==> Levels(Drained(s, x, qty, ws), sku) == Levels(s, sku);
  }

  lemma {:induction false} SoldFrame(s: Store, items: seq<Sku>, h: map<Sku, nat>)
    requires forall x | x in items :: x in s.products
    ensures var s' := Sold(s, items, h);
      (Valid(s) ==> Valid(s')) && s'.products == s.products && s'.held == s.held
    decreases |items|
  {
    if items != [] {
      var x := items[0];
      DrainFrame(s, x, At(h, x), Ascending(Levels(s, x).Keys));
      SoldFrame(Drained(s, x, At(h, x), Ascending(Levels(s, x).Keys)), items[1..], h);
    }
  }

  lemma {:induction false} SoldTotal(s: Store, items: seq<Sku>, h: map<Sku, nat>, sku: Sku)
    requires forall x | x in items :: x in s.products
    requires forall i, j | 0 <= i < j < |items| :: items[i] != items[j]
    ensures OnHand(Sold(s, items, h), sku) ==
      OnHand(s, sku) - (if sku in items then Min(At(h, sku), OnHand(s, sku)) else 0)
    decreases |items|
  {
    if items != [] {
      var x := items[0];
      DrainAllEffect(s, x, At(h, x), sku);
      SoldTotal(Drained(s, x, At(h, x), Ascending(Levels(s, x).Keys)), items[1..], h, sku);
      assert sku in items <==> sku == x || sku in items[1..];
    }
  }

  function Released(s: Store, o: OrderId): Store { s.(held := s.held - {o}) }

  ghost function Committed(s: Store, o: OrderId): Store
    requires HeldBy(s, o).Keys <= s.products.Keys
  {
    var h := HeldBy(s, o);
    AscendingFacts(h.Keys);
    Sold(Released(s, o), Ascending(h.Keys), h)
  }

  lemma ReleaseKeepsValid(s: Store, o: OrderId)
    requires Valid(s)
    ensures Valid(Released(s, o))
  {
    forall sku: Sku, w: Warehouse ensures LevelIsLogged(Released(s, o), sku, w) {
      assert LevelIsLogged(s, sku, w);
    }
  }

  lemma ReleaseEffect(s: Store, o: OrderId, sku: Sku)
    ensures OnHand(Released(s, o), sku) == OnHand(s, sku)
    ensures Reserved(Released(s, o).held, sku) == Reserved(s.held, sku) - At(HeldBy(s, o), sku)
  {
    var s' := Released(s, o);
    assert Levels(s', sku) == Levels(s, sku);
    assert s'.held.Keys == s.held.Keys - {o};
    SumAgree(s'.held.Keys, HeldOf(s.held, sku), HeldOf(s'.held, sku));
    if o in s.held {
      SumRemove(s.held.Keys, HeldOf(s.held, sku), o);
    } else {
      assert s.held.Keys - {o} == s.held.Keys;
    }
  }

  lemma CommitKeepsValid(s: Store, o: OrderId)
    requires Valid(s)
    ensures var s' := Committed(s, o);
      Valid(s') && s'.products == s.products && s'.held == s.held - {o}
  {
    var h := HeldBy(s, o);
    ReleaseKeepsValid(s, o);
    AscendingFacts(h.Keys);
    SoldFrame(Released(s, o), Ascending(h.Keys), h);
  }

  /**
   Shipping gives up the order's reservation and sells, over all warehouses together, exactly
   what was held of each SKU, or everything on hand if an adjustment had left less than that.
  */
  lemma CommitEffect(s: Store, o: OrderId, sku: Sku)
    requires Valid(s)
    ensures var s', held := Committed(s, o), At(HeldBy(s, o), sku);
      && OnHand(s', sku) == OnHand(s, sku) - Min(held, OnHand(s, sku))
      && Reserved(s'.held, sku) == Reserved(s.held, sku) - held
  {
    var h := HeldBy(s, o);
    ReleaseEffect(s, o, sku);
    AscendingFacts(h.Keys);
    SoldFrame(Released(s, o), Ascending(h.Keys), h);
    SoldTotal(Released(s, o), Ascending(h.Keys), h, sku);
  }

  // Reserving.

  /** The first line that is not a positive quantity of a known product. */
  function LinesError(s: Store, lines: seq<Line>): Option<Error> {
    if lines == [] then None
    else if lines[0].sku !in s.products then Some(UnknownSku)
    else if lines[0].qty <= 0 then Some(Invalid)
    else LinesError(s, lines[1..])
  }

  /** The quantity of each SKU over all lines. */
  function Wanted(lines: seq<Line>): map<Sku, nat> {
    if lines == [] then map[]
    else
      var m, l := Wanted(lines[..|lines| - 1]), lines[|lines| - 1];
      m[l.sku := At(m, l.sku) + Max(l.qty, 0)]
  }

  function Merged(a: map<Sku, nat>, b: map<Sku, nat>): map<Sku, nat> {
    map sku | sku in a.Keys + b.Keys :: At(a, sku) + At(b, sku)
  }

  ghost predicate Short(s: Store, wanted: map<Sku, nat>) {
    exists sku | sku in wanted :: Available(s, sku) < wanted[sku]
  }

  ghost function Reserving(s: Store, o: OrderId, lines: seq<Line>): Result<Store, Error> {
    match LinesError(s, lines)
    case Some(e) => Err(e)
    case None =>
      if Short(s, Wanted(lines)) then Err(InsufficientStock)
      else Ok(s.(held := s.held[o := Merged(HeldBy(s, o), Wanted(lines))]))
  }

  lemma {:induction false} WantedKnown(s: Store, lines: seq<Line>)
    requires LinesError(s, lines).None?
    ensures Wanted(lines).Keys <= s.products.Keys
    ensures forall l | l in lines :: l.sku in s.products && l.qty > 0
  {
    if lines != [] {
      LinesErrorAppend(s, lines[..|lines| - 1], lines[|lines| - 1]);
      assert lines == lines[..|lines| - 1] + [lines[|lines| - 1]];
      WantedKnown(s, lines[..|lines| - 1]);
    }
  }

  lemma {:induction false} LinesErrorAppend(s: Store, lines: seq<Line>, l: Line)
    ensures LinesError(s, lines + [l]) ==
      if LinesError(s, lines).Some? then LinesError(s, lines) else LinesError(s, [l])
  {
    if lines == [] {
      assert lines + [l] == [l];
    } else {
      assert (lines + [l])[1..] == lines[1..] + [l];
      LinesErrorAppend(s, lines[1..], l);
    }
  }

  lemma ReserveKeepsValid(s: Store, o: OrderId, lines: seq<Line>)
    requires Valid(s) && Reserving(s, o, lines).Ok?
    ensures Valid(Reserving(s, o, lines).value)
  {
    WantedKnown(s, lines);
    forall sku: Sku, w: Warehouse ensures LevelIsLogged(Reserving(s, o, lines).value, sku, w) {
      assert LevelIsLogged(s, sku, w);
    }
  }

  lemma ReserveEffect(s: Store, o: OrderId, lines: seq<Line>, sku: Sku)
    requires Reserving(s, o, lines).Ok?
    ensures var s' := Reserving(s, o, lines).value;
      && OnHand(s', sku) == OnHand(s, sku)
      && Reserved(s'.held, sku) == Reserved(s.held, sku) + At(Wanted(lines), sku)
      && (sku in Wanted(lines) ==> Wanted(lines)[sku] <= Available(s, sku))
  {
    var s' := Reserving(s, o, lines).value;
    assert Levels(s', sku) == Levels(s, sku);
    if o in s.held {
      assert s'.held.Keys == s.held.Keys;
      SumChange(s.held.Keys, HeldOf(s.held, sku), HeldOf(s'.held, sku), o);
    } else {
      assert s'.held.Keys == s.held.Keys + {o};
      SumAdd(s.held.Keys, HeldOf(s'.held, sku), o);
      SumAgree(s.held.Keys, HeldOf(s.held, sku), HeldOf(s'.held, sku));
    }
  }

  lemma HoldFresh(s: Store, o: OrderId, m: map<Sku, nat>, sku: Sku)
    requires o !in s.held
    ensures Reserved(s.held[o := m], sku) == Reserved(s.held, sku) + At(m, sku)
  {
    var held := s.held[o := m];
    assert held.Keys == s.held.Keys + {o};
    SumAdd(s.held.Keys, HeldOf(held, sku), o);
    SumAgree(s.held.Keys, HeldOf(s.held, sku), HeldOf(held, sku));
  }

  lemma ReservedByNobody(sku: Sku)
    ensures Reserved(map[], sku) == 0
  {
    var none: map<OrderId, map<Sku, nat>> := map[];
    SumZero(none.Keys, HeldOf(none, sku));
  }

  // No operation of an order book reserves more than there is.

  ghost predicate CoveredAt(s: Store, sku: Sku) { Reserved(s.held, sku) <= OnHand(s, sku) }

  ghost predicate Covered(s: Store) { forall sku :: CoveredAt(s, sku) }

  lemma ReleaseKeepsCovered(s: Store, o: OrderId)
    requires Covered(s)
    ensures Covered(Released(s, o))
  {
    forall sku ensures CoveredAt(Released(s, o), sku) {
      assert CoveredAt(s, sku);
      ReleaseEffect(s, o, sku);
    }
  }

  lemma CommitKeepsCovered(s: Store, o: OrderId)
    requires Valid(s) && Covered(s)
    ensures Covered(Committed(s, o))
  {
    forall sku ensures CoveredAt(Committed(s, o), sku) {
      CommitSellsHeld(s, o, sku);
    }
  }

  /** On a covered stock, shipping sells exactly what was held and changes no availability. */
  lemma CommitSellsHeld(s: Store, o: OrderId, sku: Sku)
    requires Valid(s) && Covered(s)
    ensures OnHand(Committed(s, o), sku) == OnHand(s, sku) - At(HeldBy(s, o), sku)
    ensures Available(Committed(s, o), sku) == Available(s, sku)
    ensures CoveredAt(Committed(s, o), sku)
  {
    assert CoveredAt(s, sku);
    HeldPart(s, o, sku);
    CommitEffect(s, o, sku);
  }

  /** One order's share is part of what is reserved. */
  lemma HeldPart(s: Store, o: OrderId, sku: Sku)
    ensures At(HeldBy(s, o), sku) <= Reserved(s.held, sku)
  {
    ReleaseEffect(s, o, sku);
  }

  /** An adjustment keeps reservations covered exactly when it takes no more than is available. */
  lemma AdjustKeepsCovered(s: Store, sku: Sku, delta: int, reason: Reason, w: Warehouse)
    requires Valid(s) && Covered(s) && Adjusted(s, sku, delta, reason, w).Ok?
    ensures Covered(Adjusted(s, sku, delta, reason, w).value) <==> -delta <= Available(s, sku)
  {
    AdjustEffect(s, sku, delta, reason, w);
    var s' := Adjusted(s, sku, delta, reason, w).value;
    if -delta <= Available(s, sku) {
      forall x ensures CoveredAt(s', x) {
        assert CoveredAt(s, x);
        assert x != sku ==> Levels(s', x) == Levels(s, x);
      }
    } else {
      assert !CoveredAt(s', sku);
    }
  }
}
