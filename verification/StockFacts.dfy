/** What the inventory of fixture m6 does, level by level (scripts/bench/make_large_tasks.py). */
module StockFacts {
  // Each operation's answer and its new state, said of the products, levels, reservations and
  // quantities themselves.

  import opened Inventories
  import opened SetSums
  import opened Stock
  import opened Wrappers

  /** What the lines ask for of a SKU. */
  function Demand(lines: seq<Line>, sku: Sku): int {
    if lines == [] then 0 else (if lines[0].sku == sku then lines[0].qty else 0) + Demand(lines[1..], sku)
  }

  /** The line asks for no product, or for no positive quantity of one. */
  predicate Bad(s: Store, l: Line) { l.sku !in s.products || l.qty <= 0 }

  predicate FirstBad(s: Store, lines: seq<Line>, i: int) {
    0 <= i < |lines| && Bad(s, lines[i]) && forall j | 0 <= j < i :: !Bad(s, lines[j])
  }

  ghost predicate AllGood(s: Store, lines: seq<Line>) { forall j | 0 <= j < |lines| :: !Bad(s, lines[j]) }

  ghost function Stocked(s: Store, sku: Sku): Warehouse -> nat {
    w => if sku in s.stock && w in s.stock[sku] then s.stock[sku][w] else 0
  }

  ghost function Claimed(s: Store, sku: Sku): OrderId -> nat {
    o => if o in s.held && sku in s.held[o] then s.held[o][sku] else 0
  }

  /** All stock of a SKU, less all reservations of it. */
  ghost function Unreserved(s: Store, sku: Sku): int {
    (if sku in s.stock then SumOver(s.stock[sku].Keys, Stocked(s, sku)) else 0)
    - SumOver(s.held.Keys, Claimed(s, sku))
  }

  lemma UnreservedIsAvailable(s: Store, sku: Sku)
    ensures Unreserved(s, sku) == Available(s, sku)
  {
    if sku in s.stock {
      SumAgree(s.stock[sku].Keys, Stocked(s, sku), Quantity(s.stock[sku]));
    } else {
      SumEmpty(Quantity(map[]));
    }
    forall o | o in s.held.Keys ensures Claimed(s, sku)(o) == HeldOf(s.held, sku)(o) {
      assert o in s.held;
    }
    SumAgree(s.held.Keys, Claimed(s, sku), HeldOf(s.held, sku));
  }

  // Lines.

  lemma {:induction false} LinesErrorIsFirstBad(s: Store, lines: seq<Line>) returns (i: nat)
    ensures i <= |lines| && (i < |lines| ==> FirstBad(s, lines, i)) && (i == |lines| ==> AllGood(s, lines))
    ensures LinesError(s, lines) ==
      if i == |lines| then None else if lines[i].sku !in s.products then Some(UnknownSku) else Some(Invalid)
  {
    if lines == [] {
      i := 0;
    } else if Bad(s, lines[0]) {
      i := 0;
    } else {
      var j := LinesErrorIsFirstBad(s, lines[1..]);
      i := j + 1;
      assert forall k | 0 < k < |lines| :: lines[k] == lines[1..][k - 1];
    }
  }

  lemma FirstBadIsUnique(s: Store, lines: seq<Line>, i: int, j: int)
    requires FirstBad(s, lines, i) && FirstBad(s, lines, j)
    ensures i == j
  {
  }

  lemma {:induction false} DemandAppend(lines: seq<Line>, l: Line, sku: Sku)
    ensures Demand(lines + [l], sku) == Demand(lines, sku) + (if l.sku == sku then l.qty else 0)
  {
    if lines == [] {
      assert lines + [l] == [l];
    } else {
      assert (lines + [l])[1..] == lines[1..] + [l];
      DemandAppend(lines[1..], l, sku);
    }
  }

  lemma {:induction false} DemandIsWanted(s: Store, lines: seq<Line>, sku: Sku)
    requires AllGood(s, lines)
    ensures Demand(lines, sku) == At(Wanted(lines), sku)
    ensures sku in Wanted(lines) <==> exists i :: 0 <= i < |lines| && lines[i].sku == sku
    ensures sku in Wanted(lines) <==> Demand(lines, sku) > 0
    decreases |lines|
  {
    if lines != [] {
      var n := |lines| - 1;
      assert lines == lines[..n] + [lines[n]];
      assert forall i | 0 <= i < n :: lines[i] == lines[..n][i];
      DemandIsWanted(s, lines[..n], sku);
      DemandAppend(lines[..n], lines[n], sku);
      assert !Bad(s, lines[n]);
    }
  }

  // What each operation answers, and what it leaves.

  /** Adding a product. */
  ghost predicate Adds(s: Store, sku: Option<Sku>, cents: Option<int>, backorderable: bool, r: Result<Store, Error>) {
    if sku.None? then r == Err(Invalid)
    else if sku.value in s.products then r == Err(DuplicateProduct)
    else if cents.None? || cents.value < 0 then r == Err(Invalid)
    else
      && r.Ok? && var s' := r.value;
      && s'.products.Keys == s.products.Keys + {sku.value}
      && s'.products[sku.value].unitCents == cents.value && s'.products[sku.value].backorderable == backorderable
      && (forall x | x in s.products && x != sku.value :: s'.products[x] == s.products[x])
      && s'.stock.Keys == s.stock.Keys + {sku.value} && s'.stock[sku.value] == map[]
      && (forall x | x in s.stock && x != sku.value :: s'.stock[x] == s.stock[x])
      && s'.held == s.held && s'.log == s.log
  }

  lemma AddDecided(s: Store, sku: Option<Sku>, cents: Option<int>, backorderable: bool)
    ensures Adds(s, sku, cents, backorderable, Added(s, sku, cents, backorderable))
  {
  }

  /** Adjusting a level. */
  ghost predicate Adjusts(s: Store, sku: Sku, delta: Option<int>, reason: Reason, w: Warehouse, r: Result<Store, Error>)
    requires s.stock.Keys == s.products.Keys
  {
    if sku !in s.products then r == Err(UnknownSku)
    else if reason !in {Receipt, Sale, Return, Damage, Correction, Transfer} then r == Err(UnknownReasonGiven)
    else if delta.None? then r == Err(Invalid)
    else if (if w in s.stock[sku] then s.stock[sku][w] else 0) + delta.value < 0 then r == Err(Invalid)
    else
      && r.Ok? && var s' := r.value;
      && s'.stock.Keys == s.stock.Keys && s'.stock[sku].Keys == s.stock[sku].Keys + {w}
      && s'.stock[sku][w] == (if w in s.stock[sku] then s.stock[sku][w] else 0) + delta.value
      && (forall v | v in s.stock[sku] && v != w :: s'.stock[sku][v] == s.stock[sku][v])
      && (forall x | x in s.stock && x != sku :: s'.stock[x] == s.stock[x])
      && s'.log == s.log + [Adjustment(sku, delta.value, reason, w)]
      && s'.products == s.products && s'.held == s.held
  }

  lemma AdjustDecided(s: Store, sku: Sku, delta: Option<int>, reason: Reason, w: Warehouse)
    requires s.stock.Keys == s.products.Keys
    ensures Adjusts(s, sku, delta, reason, w, Adjusting(s, sku, delta, reason, w))
  {
  }

  /** Some SKU is asked for beyond what is unreserved. */
  ghost predicate Beyond(s: Store, lines: seq<Line>, sku: Sku) {
    Demand(lines, sku) > 0 && Demand(lines, sku) > Unreserved(s, sku)
  }

  /** Reserving lines for an order: all of them, or none. */
  ghost predicate Reserves(s: Store, o: OrderId, lines: seq<Line>, r: Result<Store, Error>) {
    if exists i :: FirstBad(s, lines, i) then
      forall i | FirstBad(s, lines, i) :: r == Err(if lines[i].sku !in s.products then UnknownSku else Invalid)
    else if exists sku :: Beyond(s, lines, sku) then r == Err(InsufficientStock)
    else
      && r.Ok? && var s' := r.value;
      && s'.products == s.products && s'.stock == s.stock && s'.log == s.log
      && OnlyHolds(s, s', o)
      && forall sku: Sku :: At(HeldBy(s', o), sku) == At(HeldBy(s, o), sku) + Demand(lines, sku)
  }

  /** Nothing but what the order holds is different, and it may hold something. */
  ghost predicate OnlyHolds(s: Store, s': Store, o: OrderId) {
    && s'.held.Keys == s.held.Keys + {o}
    && forall x | x in s.held && x != o :: s'.held[x] == s.held[x]
  }

  lemma ShortIsBeyond(s: Store, lines: seq<Line>)
    requires AllGood(s, lines)
    ensures Short(s, Wanted(lines)) <==> exists sku :: Beyond(s, lines, sku)
  {
    forall sku ensures Beyond(s, lines, sku) <==> sku in Wanted(lines) && Available(s, sku) < Wanted(lines)[sku] {
      DemandIsWanted(s, lines, sku);
      UnreservedIsAvailable(s, sku);
    }
  }

  lemma ReserveDecided(s: Store, o: OrderId, lines: seq<Line>)
    ensures Reserves(s, o, lines, Reserving(s, o, lines))
  {
    var i := LinesErrorIsFirstBad(s, lines);
    if i < |lines| {
      forall j | FirstBad(s, lines, j) ensures i == j {
        FirstBadIsUnique(s, lines, i, j);
      }
    } else {
      ShortIsBeyond(s, lines);
      forall sku ensures At(Wanted(lines), sku) == Demand(lines, sku) {
        DemandIsWanted(s, lines, sku);
      }
    }
  }

  // Selling.

  ghost predicate Rising(ws: seq<Warehouse>) { forall i, j | 0 <= i < j < |ws| :: ws[i] < ws[j] }

  /** Levels only fall, and a warehouse is touched only when all before it are empty. */
  ghost predicate InOrder(m: map<Warehouse, nat>, m': map<Warehouse, nat>) {
    && (forall w :: At(m', w) <= At(m, w))
    && forall v, w | v < w && At(m', w) < At(m, w) :: At(m', v) == 0
  }

  lemma {:induction false} TakenInOrder(m: map<Warehouse, nat>, qty: nat, ws: seq<Warehouse>)
    requires Rising(ws)
    ensures var m' := Taken(m, qty, ws);
      && (forall w | w !in ws :: At(m', w) == At(m, w)) && (forall w :: At(m', w) <= At(m, w))
      && forall v, w | v in ws && v < w && At(m', w) < At(m, w) :: At(m', v) == 0
    decreases |ws|
  {
    if ws != [] {
      var u, rest := ws[0], ws[1..];
      var take := Min(qty, At(m, u));
      var m1 := if take == 0 then m else m[u := At(m, u) - take];
      assert u !in rest;
      TakenInOrder(m1, qty - take, rest);
      var m' := Taken(m, qty, ws);
      if take == qty {
        TakenNothing(m1, rest);
      }
      forall v, w | v in ws && v < w && At(m', w) < At(m, w) ensures At(m', v) == 0 {
        assert w != u;
        assert v == u || v in rest;
      }
    }
  }

  lemma AscendingInOrder(m: map<Warehouse, nat>, qty: nat)
    ensures InOrder(m, Taken(m, qty, Ascending(m.Keys)))
  {
    AscendingFacts(m.Keys);
    TakenInOrder(m, qty, Ascending(m.Keys));
    var m' := Taken(m, qty, Ascending(m.Keys));
    forall v, w | v < w && At(m', w) < At(m, w) ensures At(m', v) == 0 {
      assert v in m.Keys || At(m, v) == 0;
    }
  }

  /** The log goes on with sales of these SKUs alone. */
  ghost predicate LogsSales(s: Store, s': Store, items: set<Sku>) {
    && s.log <= s'.log
    && forall i | |s.log| <= i < |s'.log| :: s'.log[i].reason == Sale && s'.log[i].delta < 0 && s'.log[i].sku in items
  }

  lemma {:induction false} DrainLogs(s: Store, sku: Sku, qty: nat, ws: seq<Warehouse>, items: set<Sku>)
    requires sku in s.products && sku in items
    ensures LogsSales(s, Drained(s, sku, qty, ws), items)
    decreases |ws|
  {
    if ws != [] {
      var (s1, take) := DrainedOne(s, sku, qty, ws[0]);
      assert LogsSales(s, s1, items);
      DrainLogs(s1, sku, qty - take, ws[1..], items);
      LogsOn(s, s1, Drained(s1, sku, qty - take, ws[1..]), items);
    }
  }

  lemma LogsOn(s: Store, s1: Store, s2: Store, items: set<Sku>)
    requires LogsSales(s, s1, items) && LogsSales(s1, s2, items)
    ensures LogsSales(s, s2, items)
  {
    forall i | |s.log| <= i < |s2.log|
      ensures s2.log[i].reason == Sale && s2.log[i].delta < 0 && s2.log[i].sku in items
    {
      if i < |s1.log| {
        assert s2.log[i] == s1.log[i];
      }
    }
  }

  lemma {:induction false} SoldLogs(s: Store, items: seq<Sku>, h: map<Sku, nat>, all: set<Sku>)
    requires forall x | x in items :: x in s.products && x in all
    ensures LogsSales(s, Sold(s, items, h), all)
    decreases |items|
  {
    if items != [] {
      var x := items[0];
      var s1 := Drained(s, x, At(h, x), Ascending(Levels(s, x).Keys));
      DrainLogs(s, x, At(h, x), Ascending(Levels(s, x).Keys), all);
      SoldLogs(s1, items[1..], h, all);
      LogsOn(s, s1, Sold(s1, items[1..], h), all);
    }
  }

  lemma {:induction false} SoldInOrder(s: Store, items: seq<Sku>, h: map<Sku, nat>, sku: Sku)
    requires forall x | x in items :: x in s.products
    requires forall i, j | 0 <= i < j < |items| :: items[i] != items[j]
    ensures InOrder(Levels(s, sku), Levels(Sold(s, items, h), sku))
    ensures sku !in items ==> Levels(Sold(s, items, h), sku) == Levels(s, sku)
    decreases |items|
  {
    if items != [] {
      var x, ws := items[0], Ascending(Levels(s, items[0]).Keys);
      var s1 := Drained(s, x, At(h, x), ws);
      DrainFrame(s, x, At(h, x), ws);
      DrainLevels(s, x, At(h, x), ws);
      SoldInOrder(s1, items[1..], h, sku);
      if sku == x {
        AscendingInOrder(Levels(s, x), At(h, x));
      }
    }
  }

  /**
   Shipping sells of each SKU what the order held, as far as there is stock; warehouses are emptied
   in the order of their names, and every sale is logged.
  */
  lemma CommitDecided(s: Store, o: OrderId, sku: Sku)
    requires Valid(s)
    ensures var s' := Committed(s, o);
      && Valid(s') && s'.products == s.products && s'.held == s.held - {o}
      && InOrder(Levels(s, sku), Levels(s', sku))
      && OnHand(s', sku) == OnHand(s, sku) - Min(At(HeldBy(s, o), sku), OnHand(s, sku))
      && LogsSales(s, s', HeldBy(s, o).Keys)
  {
    var h := HeldBy(s, o);
    AscendingFacts(h.Keys);
    CommitKeepsValid(s, o);
    CommitEffect(s, o, sku);
    SoldInOrder(Released(s, o), Ascending(h.Keys), h, sku);
    SoldLogs(Released(s, o), Ascending(h.Keys), h, h.Keys);
  }
}
