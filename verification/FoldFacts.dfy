/** What a compaction's row says of the requests of the log (scripts/bench/fold_economics.py, `analyze`). */
module FoldFacts {
  // By positions in the log: which requests a row counts, and which it compares.

  import opened FoldEconomics
  import opened Sequences
  import opened Wrappers

  /** A completed request of one purpose stands here. */
  predicate DoneHere(log: Log, k: int, compaction: bool) {
    0 <= k < |log| && log[k].completed && log[k].compaction == compaction
  }

  ghost function DoneIn(log: Log, from: int, to: int, compaction: bool): set<int> {
    set k | from <= k < to && DoneHere(log, k, compaction)
  }

  predicate LastBefore(log: Log, stop: int, k: int) {
    k < stop && DoneHere(log, k, false) && forall j | k < j < stop :: !DoneHere(log, j, false)
  }

  predicate FirstFrom(log: Log, start: int, end: int, compaction: bool, k: int) {
    start <= k < end && DoneHere(log, k, compaction) && forall j | start <= j < k :: !DoneHere(log, j, compaction)
  }

  /** The sum of a figure over the completed compactions of a stretch, or none when one of them is unknown. */
  function SumIn(log: Log, from: int, to: int, f: Figure): Option<int>
    decreases to - from
  {
    if from >= to then Some(0)
    else
      var rest := SumIn(log, from + 1, to, f);
      if !DoneHere(log, from, true) then rest
      else
        var x := match f case Input => log[from].input case Output => log[from].output case Duration => log[from].duration;
        if x.None? || rest.None? then None else Some(x.value + rest.value)
  }

  // The lists of completed requests, by positions.

  lemma DoneInOn(log: Log, from: nat, to: nat, compaction: bool)
    requires from < to <= |log|
    ensures |DoneIn(log, from, to, compaction)| ==
      |DoneIn(log, from + 1, to, compaction)| + (if DoneHere(log, from, compaction) then 1 else 0)
  {
    var rest := DoneIn(log, from + 1, to, compaction);
    if DoneHere(log, from, compaction) {
      assert DoneIn(log, from, to, compaction) == rest + {from};
    } else {
      assert DoneIn(log, from, to, compaction) == rest;
    }
  }

  lemma {:induction false} DoneCount(log: Log, from: nat, to: nat, compaction: bool)
    requires from <= to <= |log|
    ensures |Done(log[from..to], compaction)| == |DoneIn(log, from, to, compaction)|
    decreases |log| - from
  {
    var part := log[from..to];
    if from == to {
      assert DoneIn(log, from, to, compaction) == {};
    } else {
      DoneCount(log, from + 1, to, compaction);
      assert part[1..] == log[from + 1..to] && part[0] == log[from];
      DoneInOn(log, from, to, compaction);
    }
  }

  lemma {:induction false} DoneFirst(log: Log, from: nat, to: nat, compaction: bool) returns (k: nat)
    requires from <= to <= |log|
    ensures Done(log[from..to], compaction) == [] ==> forall j | from <= j < to :: !DoneHere(log, j, compaction)
    ensures Done(log[from..to], compaction) != [] ==>
      FirstFrom(log, from, to, compaction, k) && Done(log[from..to], compaction)[0] == log[k]
    decreases |log| - from
  {
    k := from;
    if from < to {
      var part := log[from..to];
      assert part[1..] == log[from + 1..to] && part[0] == log[from];
      if !DoneHere(log, from, compaction) {
        k := DoneFirst(log, from + 1, to, compaction);
      }
    }
  }

  lemma {:induction false} DoneLast(log: Log, stop: nat) returns (k: nat)
    requires stop <= |log|
    ensures Done(log[..stop], false) == [] ==> forall j | 0 <= j < stop :: !DoneHere(log, j, false)
    ensures var done := Done(log[..stop], false);
      done != [] ==> LastBefore(log, stop, k) && done[|done| - 1] == log[k]
  {
    k := 0;
    if stop > 0 {
      assert log[..stop] == log[..stop - 1] + [log[stop - 1]];
      DoneSplit(log[..stop - 1], [log[stop - 1]], false);
      assert [log[stop - 1]][1..] == [];
      if DoneHere(log, stop - 1, false) {
        k := stop - 1;
      } else {
        k := DoneLast(log, stop - 1);
      }
    }
  }

  lemma {:induction false} SumIs(log: Log, from: nat, to: nat, f: Figure)
    requires from <= to <= |log|
    ensures WholeSum(Figures(Done(log[from..to], true), f)) == SumIn(log, from, to, f)
    decreases |log| - from
  {
    var part := log[from..to];
    if from < to {
      SumIs(log, from + 1, to, f);
      assert part[1..] == log[from + 1..to] && part[0] == log[from];
      if DoneHere(log, from, true) {
        var rest := Done(part[1..], true);
        assert Done(part, true) == [part[0]] + rest;
        FiguresOne(part[0], rest, f);
      } else {
        assert Done(part, true) == [] + Done(part[1..], true) == Done(part[1..], true);
      }
    }
  }

  lemma FiguresOne(r: Request, rest: Log, f: Figure)
    ensures WholeSum(Figures([r] + rest, f)) == Plus(FigureOf(r, f), WholeSum(Figures(rest, f)))
  {
    assert Figures([r] + rest, f)[1..] == Figures(rest, f);
  }

  // A row.

  /** What the compactions of the row's group cost. */
  ghost predicate Costs(log: Log, s: Span, row: Row) {
    && row.requests == |DoneIn(log, s.start, s.stop, true)|
    && (forall k | FirstFrom(log, s.start, s.stop, true, k) :: row.turn == log[k].turn)
    && row.input == SumIn(log, s.start, s.stop, Input) && row.output == SumIn(log, s.start, s.stop, Output)
    && row.duration == SumIn(log, s.start, s.stop, Duration)
  }

  /** The sizes of the last completed coding request before the group. */
  ghost predicate SaysBefore(log: Log, s: Span, row: Row) {
    if exists k :: LastBefore(log, s.start, k) then
      forall k | LastBefore(log, s.start, k) :: row.beforeInput == log[k].input && row.beforeCacheRead == log[k].cacheRead
    else row.beforeInput.None? && row.beforeCacheRead.None?
  }

  /** And of the first one after it, up to the next row's group. */
  ghost predicate SaysAfter(log: Log, s: Span, end: int, row: Row) {
    if exists k :: FirstFrom(log, s.stop, end, false, k) then
      forall k | FirstFrom(log, s.stop, end, false, k) :: row.afterInput == log[k].input && row.afterCacheRead == log[k].cacheRead
    else row.afterInput.None? && row.afterCacheRead.None?
  }

  /** The reduction, what it saves if every later request keeps it, and what is left after the cost. */
  predicate Balances(row: Row) {
    && (row.reduction.Some? <==> row.beforeInput.Some? && row.afterInput.Some?)
    && (row.reduction.Some? ==> row.reduction.value == row.beforeInput.value - row.afterInput.value)
    && (row.estSaved.Some? <==> row.reduction.Some?)
    && (row.estSaved.Some? ==> row.estSaved.value == if row.reduction.value > 0 then row.reduction.value * row.later else 0)
    && (row.net.Some? <==> row.estSaved.Some? && row.input.Some?)
    && (row.net.Some? ==> row.net.value == row.estSaved.value - row.input.value)
  }

  /** The i-th row is about the i-th measured group, and about the coding requests up to the next. */
  ghost predicate IsRow(log: Log, spans: seq<Span>, i: nat, row: Row)
    requires i < |spans|
  {
    var s, end := spans[i], if i + 1 < |spans| then spans[i + 1].start else |log|;
    && row.n == i + 1 && Costs(log, s, row) && SaysBefore(log, s, row) && SaysAfter(log, s, end, row)
    && row.later == |DoneIn(log, s.stop, end, false)| && Balances(row)
  }

  lemma CostsAre(log: Log, spans: seq<Span>, i: nat)
    requires Measured(log, spans) && i < |spans|
    ensures Costs(log, spans[i], RowOf(log, spans, i))
  {
    var s := spans[i];
    assert IsGroup(log, s) && HasDone(log, s);
    DoneCount(log, s.start, s.stop, true);
    var k := DoneFirst(log, s.start, s.stop, true);
    HasMembers(log, s);
    SumIs(log, s.start, s.stop, Input);
    SumIs(log, s.start, s.stop, Output);
    SumIs(log, s.start, s.stop, Duration);
  }

  lemma BeforeIs(log: Log, spans: seq<Span>, i: nat)
    requires Measured(log, spans) && i < |spans|
    ensures SaysBefore(log, spans[i], RowOf(log, spans, i))
  {
    var s := spans[i];
    assert IsGroup(log, s);
    var k := DoneLast(log, s.start);
    assert Done(log[..s.start], false) != [] ==> LastBefore(log, s.start, k);
  }

  lemma AfterIs(log: Log, spans: seq<Span>, i: nat)
    requires Measured(log, spans) && i < |spans|
    ensures SaysAfter(log, spans[i], End(log, spans, i), RowOf(log, spans, i))
    ensures RowOf(log, spans, i).later == |DoneIn(log, spans[i].stop, End(log, spans, i), false)|
  {
    var s, end := spans[i], End(log, spans, i);
    EndInRange(log, spans, i);
    var k := DoneFirst(log, s.stop, end, false);
    assert Done(log[s.stop..end], false) != [] ==> FirstFrom(log, s.stop, end, false, k);
    DoneCount(log, s.stop, end, false);
  }

  lemma BalancesAre(log: Log, spans: seq<Span>, i: nat)
    requires Measured(log, spans) && i < |spans|
    ensures Balances(RowOf(log, spans, i)) && RowOf(log, spans, i).n == i + 1
  {
    EndInRange(log, spans, i);
  }

  lemma RowIs(log: Log, spans: seq<Span>, i: nat)
    requires Measured(log, spans) && i < |spans|
    ensures IsRow(log, spans, i, RowOf(log, spans, i))
  {
    CostsAre(log, spans, i);
    BeforeIs(log, spans, i);
    AfterIs(log, spans, i);
    BalancesAre(log, spans, i);
  }

  lemma RowsBegin(log: Log, spans: seq<Span>, from: nat) returns (row: Row)
    requires Measured(log, spans) && from < |spans|
    ensures RowsOf(log, spans, from) == [row] + RowsOf(log, spans, from + 1) && IsRow(log, spans, from, row)
  {
    row := RowOf(log, spans, from);
    RowIs(log, spans, from);
  }

  /** The rows are about the groups from `from` on. */
  ghost predicate AreRows(log: Log, spans: seq<Span>, from: nat, rows: seq<Row>)
    requires from <= |spans|
  {
    |rows| == |spans| - from && forall i | from <= i < |spans| :: RowHere(log, spans, from, rows, i)
  }

  ghost predicate RowHere(log: Log, spans: seq<Span>, from: nat, rows: seq<Row>, i: nat)
    requires from <= i < |spans| && |rows| == |spans| - from
  {
    IsRow(log, spans, i, rows[i - from])
  }

  lemma AreRowsOn(log: Log, spans: seq<Span>, from: nat, row: Row, rest: seq<Row>)
    requires from < |spans| && IsRow(log, spans, from, row) && AreRows(log, spans, from + 1, rest)
    ensures AreRows(log, spans, from, [row] + rest)
  {
    var rows := [row] + rest;
    forall i | from <= i < |spans| ensures RowHere(log, spans, from, rows, i) {
      if i > from {
        assert RowHere(log, spans, from + 1, rest, i);
      }
    }
  }

  lemma {:induction false} RowsAreFrom(log: Log, spans: seq<Span>, from: nat)
    requires Measured(log, spans) && from <= |spans|
    ensures AreRows(log, spans, from, RowsOf(log, spans, from))
    decreases |spans| - from
  {
    if from < |spans| {
      var row := RowsBegin(log, spans, from);
      RowsAreFrom(log, spans, from + 1);
      AreRowsOn(log, spans, from, row, RowsOf(log, spans, from + 1));
    }
  }

  /** One row for each measured group, and what it says. */
  lemma RowsAre(log: Log, spans: seq<Span>)
    requires Measured(log, spans)
    ensures var rows := RowsOf(log, spans, 0);
      |rows| == |spans| && forall i | 0 <= i < |rows| :: IsRow(log, spans, i, rows[i])
  {
    var rows := RowsOf(log, spans, 0);
    RowsAreFrom(log, spans, 0);
    forall i | 0 <= i < |rows| ensures IsRow(log, spans, i, rows[i]) {
      assert RowHere(log, spans, 0, rows, i);
    }
  }

  /** The groups are the longest runs of compactions with a completed one among them, and nothing else. */
  lemma MeasuredAre(log: Log, spans: seq<Span>, s: Span)
    requires Measured(log, spans)
    ensures s in spans <==> IsGroup(log, s) && exists k :: s.start <= k < s.stop && DoneHere(log, k, true)
  {
    if s in spans {
      var i :| 0 <= i < |spans| && spans[i] == s;
      assert IsGroup(log, spans[i]) && HasDone(log, spans[i]);
      var k :| s.start <= k < s.stop && k < |log| && log[k].completed;
      assert DoneHere(log, k, true);
    }
    if IsGroup(log, s) && exists k :: s.start <= k < s.stop && DoneHere(log, k, true) {
      var k :| s.start <= k < s.stop && DoneHere(log, k, true);
      assert Counts(log[k], true) && Covered(spans, k);
      var i :| 0 <= i < |spans| && Within(spans[i], k);
      assert IsGroup(log, spans[i]);
      GroupsMeet(log, s, spans[i], k);
    }
  }

  // The summary.

  function SumOfKnown(values: seq<Option<int>>): int {
    if values == [] then 0 else (if values[0].Some? then values[0].value else 0) + SumOfKnown(values[1..])
  }

  /** A total adds what is known, and is unknown only when nothing is. */
  lemma {:induction false} KnownSumIs(values: seq<Option<int>>)
    ensures KnownSum(values).None? <==> forall i | 0 <= i < |values| :: values[i].None?
    ensures KnownSum(values).Some? ==> KnownSum(values).value == SumOfKnown(values)
    ensures KnownSum(values).None? ==> SumOfKnown(values) == 0
  {
    if values != [] {
      KnownSumIs(values[1..]);
      assert forall i | 0 < i < |values| :: values[i] == values[1..][i - 1];
    }
  }
}
