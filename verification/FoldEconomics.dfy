/**
 What each compaction of a run bought (scripts/bench/fold_economics.py). The log holds the root
 actor's provider attempts in order; only completed ones are measured, but every attempt that is
 not a compaction sets two compactions apart.
*/
module FoldEconomics {
  import opened Sequences
  import opened Wrappers

  datatype Request = Request(compaction: bool, turn: nat, completed: bool, input: Option<int>, cacheRead: Option<int>,
                             output: Option<int>, duration: Option<int>)

  type Log = seq<Request>

  // Groups.

  datatype Span = Span(start: nat, stop: nat)

  /** A longest run of consecutive compaction attempts. */
  predicate IsGroup(log: Log, s: Span) {
    && s.start < s.stop <= |log|
    && (forall k | s.start <= k < s.stop :: log[k].compaction)
    && (s.start > 0 ==> !log[s.start - 1].compaction)
    && (s.stop < |log| ==> !log[s.stop].compaction)
  }

  predicate InOrder(spans: seq<Span>) { forall i, j | 0 <= i < j < |spans| :: spans[i].stop < spans[j].start }

  predicate Within(s: Span, k: int) { s.start <= k < s.stop }

  ghost predicate Covered(spans: seq<Span>, k: int) { exists i :: 0 <= i < |spans| && Within(spans[i], k) }

  lemma CoveredOn(spans: seq<Span>, s: Span, k: int)
    ensures Covered(spans + [s], k) <==> Covered(spans, k) || Within(s, k)
  {
    var all := spans + [s];
    if Covered(spans, k) {
      var i :| 0 <= i < |spans| && Within(spans[i], k);
      assert Within(all[i], k);
    }
    if Within(s, k) {
      assert Within(all[|spans|], k);
    }
  }

  /** A group that is still open where the scan stands. */
  predicate IsOpen(log: Log, start: nat, index: nat) {
    && start < index <= |log| && (forall k | start <= k < index :: log[k].compaction)
    && (start > 0 ==> !log[start - 1].compaction)
  }

  method Groups(log: Log) returns (found: seq<Span>)
    ensures InOrder(found)
    ensures forall s :: s in found <==> IsGroup(log, s)
  {
    found := [];
    var start: Option<nat> := None;
    for index := 0 to |log| + 1
      invariant InOrder(found)
      invariant forall i | 0 <= i < |found| :: IsGroup(log, found[i]) && found[i].stop < index
      invariant start.Some? ==> IsOpen(log, start.value, index)
      invariant start.Some? ==> forall i | 0 <= i < |found| :: found[i].stop < start.value
      invariant start.None? ==> index == 0 || index == |log| + 1 || !log[index - 1].compaction
      invariant forall k | 0 <= k < index && k < |log| && log[k].compaction ::
        (start.Some? && start.value <= k) || Covered(found, k)
    {
      if index < |log| && log[index].compaction {
        start := if start.None? then Some(index) else start;
      } else if start.Some? {
        forall k | 0 <= k < |log| && k < index + 1 && log[k].compaction
          ensures Covered(found + [Span(start.value, index)], k)
        {
          CoveredOn(found, Span(start.value, index), k);
        }
        found := found + [Span(start.value, index)];
        start := None;
      }
    }
    forall s | IsGroup(log, s) ensures s in found {
      assert Covered(found, s.start);
      ghost var i :| 0 <= i < |found| && Within(found[i], s.start);
      GroupsMeet(log, s, found[i], s.start);
    }
  }

  lemma GroupStart(log: Log, s: Span, t: Span, k: int)
    requires IsGroup(log, s) && IsGroup(log, t) && Within(s, k) && Within(t, k)
    ensures t.start <= s.start && s.stop <= t.stop
  {
    NotWithin(log, s, t.start - 1);
    NotWithin(log, s, t.stop);
  }

  lemma NotWithin(log: Log, s: Span, j: int)
    requires IsGroup(log, s)
    ensures 0 <= j < |log| && !log[j].compaction ==> !Within(s, j)
  {
  }

  /** Two groups that share an attempt are the same. */
  lemma GroupsMeet(log: Log, s: Span, t: Span, k: int)
    requires IsGroup(log, s) && IsGroup(log, t) && Within(s, k) && Within(t, k)
    ensures s == t
  {
    GroupStart(log, s, t, k);
    GroupStart(log, t, s, k);
  }

  // Measured requests.

  predicate Counts(r: Request, compaction: bool) { r.completed && r.compaction == compaction }

  /** The completed requests of one purpose. */
  function Done(log: Log, compaction: bool): Log {
    if log == [] then [] else (if Counts(log[0], compaction) then [log[0]] else []) + Done(log[1..], compaction)
  }

  lemma {:induction false} DoneSplit(a: Log, b: Log, compaction: bool)
    ensures Done(a + b, compaction) == Done(a, compaction) + Done(b, compaction)
  {
    if a == [] {
      assert a + b == b && Done(b, compaction) == [] + Done(b, compaction);
    } else {
      DoneSplit(a[1..], b, compaction);
      assert (a + b)[1..] == a[1..] + b && (a + b)[0] == a[0];
      var x := if Counts(a[0], compaction) then [a[0]] else [];
      assert x + (Done(a[1..], compaction) + Done(b, compaction)) == (x + Done(a[1..], compaction)) + Done(b, compaction);
    }
  }

  lemma DoneAt(log: Log, lo: nat, mid: nat, hi: nat, compaction: bool)
    requires lo <= mid <= hi <= |log|
    ensures Done(log[lo..hi], compaction) == Done(log[lo..mid], compaction) + Done(log[mid..hi], compaction)
  {
    assert log[lo..hi] == log[lo..mid] + log[mid..hi];
    DoneSplit(log[lo..mid], log[mid..hi], compaction);
  }

  lemma {:induction false} NoneDone(log: Log, compaction: bool)
    requires forall k | 0 <= k < |log| :: !Counts(log[k], compaction)
    ensures Done(log, compaction) == []
  {
    if log != [] {
      NoneDone(log[1..], compaction);
    }
  }

  lemma {:induction false} SomeDone(log: Log, k: nat)
    requires k < |log| && log[k].completed
    ensures Done(log, log[k].compaction) != []
  {
    if k > 0 {
      SomeDone(log[1..], k - 1);
    }
  }

  // Sums.

  /** The sum of the known parts, or none when nothing is known. */
  function KnownSum(values: seq<Option<int>>): Option<int> {
    if values == [] then None
    else
      var rest := KnownSum(values[1..]);
      if values[0].None? then rest else if rest.None? then values[0] else Some(values[0].value + rest.value)
  }

  function Plus(a: Option<int>, b: Option<int>): Option<int> {
    if a.None? || b.None? then None else Some(a.value + b.value)
  }

  /** The sum, or none when any part is unknown. */
  function WholeSum(values: seq<Option<int>>): Option<int> {
    if values == [] then Some(0) else Plus(values[0], WholeSum(values[1..]))
  }

  function Difference(left: Option<int>, right: Option<int>): Option<int> {
    if left.None? || right.None? then None else Some(left.value - right.value)
  }

  /** What the requests of a compaction are charged. */
  datatype Figure = Input | Output | Duration

  function FigureOf(r: Request, f: Figure): Option<int> {
    match f
    case Input => r.input
    case Output => r.output
    case Duration => r.duration
  }

  function Figures(log: Log, f: Figure): (r: seq<Option<int>>)
    ensures |r| == |log|
  {
    seq(|log|, i requires 0 <= i < |log| => FigureOf(log[i], f))
  }

  lemma {:induction false} WholeSplit(a: seq<Option<int>>, b: seq<Option<int>>)
    ensures WholeSum(a + b) == Plus(WholeSum(a), WholeSum(b))
  {
    if a == [] {
      assert a + b == b;
    } else {
      WholeSplit(a[1..], b);
      assert (a + b)[1..] == a[1..] + b;
    }
  }

  /** The whole sum is known exactly if every part is; then the sum of the known parts is the same. */
  lemma {:induction false} WholeIsKnown(values: seq<Option<int>>)
    ensures WholeSum(values).Some? <==> forall i | 0 <= i < |values| :: values[i].Some?
    ensures WholeSum(values).Some? && values != [] ==> KnownSum(values) == WholeSum(values)
  {
    if values != [] {
      WholeIsKnown(values[1..]);
      assert forall i | 1 <= i < |values| :: values[i] == values[1..][i - 1];
    }
  }

  // Rows.

  datatype Row = Row(n: nat, turn: nat, requests: nat, input: Option<int>, output: Option<int>, duration: Option<int>,
                     beforeInput: Option<int>, beforeCacheRead: Option<int>, afterInput: Option<int>,
                     afterCacheRead: Option<int>, reduction: Option<int>, later: nat, estSaved: Option<int>,
                     net: Option<int>)

  function Cost(row: Row, f: Figure): Option<int> {
    match f
    case Input => row.input
    case Output => row.output
    case Duration => row.duration
  }

  /** The groups that measured something, in order; every completed compaction is in one. */
  ghost predicate Measured(log: Log, spans: seq<Span>) {
    && InOrder(spans)
    && (forall i {:trigger IsGroup(log, spans[i])} | 0 <= i < |spans| :: IsGroup(log, spans[i]) && HasDone(log, spans[i]))
    && (forall k {:trigger Covered(spans, k)} | 0 <= k < |log| && Counts(log[k], true) :: Covered(spans, k))
  }

  predicate HasDone(log: Log, s: Span) { exists k :: s.start <= k < s.stop && k < |log| && log[k].completed }

  /** Where the attempts that a row accounts for end. */
  function End(log: Log, spans: seq<Span>, i: nat): nat
    requires i < |spans|
  {
    if i + 1 < |spans| then spans[i + 1].start else |log|
  }

  lemma EndInRange(log: Log, spans: seq<Span>, i: nat)
    requires Measured(log, spans) && i < |spans|
    ensures spans[i].start < spans[i].stop <= End(log, spans, i) <= |log|
  {
    assert IsGroup(log, spans[i]);
    if i + 1 < |spans| {
      assert IsGroup(log, spans[i + 1]) && spans[i].stop < spans[i + 1].start;
    }
  }

  /** Stands for a request that is not there. */
  const NOBODY := Request(false, 0, false, None, None, None, None)

  function RowOf(log: Log, spans: seq<Span>, i: nat): (r: Row)
    requires Measured(log, spans) && i < |spans|
  {
    var s, end := spans[i], End(log, spans, i);
    EndInRange(log, spans, i);
    assert IsGroup(log, s);
    var members, before, after := Done(log[s.start..s.stop], true), Done(log[..s.start], false), Done(log[s.stop..end], false);
    HasMembers(log, s);
    var cost := WholeSum(Figures(members, Input));
    var last := if before == [] then NOBODY else before[|before| - 1];
    var first := if after == [] then NOBODY else after[0];
    var reduction := Difference(last.input, first.input);
    var estSaved := if reduction.None? then None else Some((if reduction.value > 0 then reduction.value else 0) * |after|);
    Row(i + 1, members[0].turn, |members|, cost, WholeSum(Figures(members, Output)), WholeSum(Figures(members, Duration)),
        last.input, last.cacheRead, first.input, first.cacheRead, reduction, |after|, estSaved, Difference(estSaved, cost))
  }

  lemma HasMembers(log: Log, s: Span)
    requires IsGroup(log, s) && HasDone(log, s)
    ensures Done(log[s.start..s.stop], true) != []
  {
    var k :| s.start <= k < s.stop && k < |log| && log[k].completed;
    assert log[s.start..s.stop][k - s.start] == log[k];
    SomeDone(log[s.start..s.stop], k - s.start);
  }

  /** The rows from the i-th on. */
  ghost function RowsOf(log: Log, spans: seq<Span>, i: nat): (r: seq<Row>)
    requires Measured(log, spans) && i <= |spans|
    decreases |spans| - i
  {
    if i == |spans| then [] else [RowOf(log, spans, i)] + RowsOf(log, spans, i + 1)
  }

  method MeasuredSpans(log: Log) returns (spans: seq<Span>)
    ensures Measured(log, spans)
  {
    var all := Groups(log);
    spans := [];
    for i := 0 to |all|
      invariant InOrder(spans)
      invariant forall j | 0 <= j < |spans| :: spans[j] in all[..i] && IsGroup(log, spans[j]) && HasDone(log, spans[j])
      invariant forall j | 0 <= j < i && HasDone(log, all[j]) :: all[j] in spans
    {
      var s := all[i];
      assert IsGroup(log, s) by {
        assert s in all;
      }
      if HasDone(log, s) {
        forall j | 0 <= j < |spans| ensures spans[j].stop < s.start {
          assert spans[j] in all[..i];
          var k :| 0 <= k < |all[..i]| && all[..i][k] == spans[j];
          assert all[k].stop < all[i].start;
        }
        spans := spans + [s];
      }
    }
    forall k | 0 <= k < |log| && Counts(log[k], true) ensures Covered(spans, k) {
      var s := GroupOf(log, k);
      assert s in all && HasDone(log, s);
      assert s in spans;
    }
  }

  /** Every compaction attempt is in a group. */
  lemma GroupOf(log: Log, k: nat) returns (s: Span)
    requires k < |log| && log[k].compaction
    ensures IsGroup(log, s) && Within(s, k)
  {
    var a, b := k, k + 1;
    while a > 0 && log[a - 1].compaction
      invariant 0 <= a <= k && forall i | a <= i <= k :: log[i].compaction
    {
      a := a - 1;
    }
    while b < |log| && log[b].compaction
      invariant k < b <= |log| && forall i | a <= i < b :: log[i].compaction
    {
      b := b + 1;
    }
    s := Span(a, b);
  }

  lemma RowsOn(log: Log, spans: seq<Span>, rows: seq<Row>, i: nat)
    requires Measured(log, spans) && i < |spans|
    ensures rows + RowsOf(log, spans, i) == RowsOf(log, spans, 0) ==> (rows + [RowOf(log, spans, i)]) + RowsOf(log, spans, i + 1) == RowsOf(log, spans, 0)
  {
    Associates(rows, [RowOf(log, spans, i)], RowsOf(log, spans, i + 1));
  }

  method Analyze(log: Log) returns (rows: seq<Row>, spans: seq<Span>)
    ensures Measured(log, spans) && rows == RowsOf(log, spans, 0)
  {
    spans := MeasuredSpans(log);
    rows := [];
    for i := 0 to |spans|
      invariant rows + RowsOf(log, spans, i) == RowsOf(log, spans, 0)
    {
      RowsOn(log, spans, rows, i);
      rows := rows + [RowOf(log, spans, i)];
    }
  }

  // Conservation.

  function Requests(rows: seq<Row>): nat {
    if rows == [] then 0 else rows[0].requests + Requests(rows[1..])
  }

  function Later(rows: seq<Row>): nat {
    if rows == [] then 0 else rows[0].later + Later(rows[1..])
  }

  function Costs(rows: seq<Row>, f: Figure): seq<Option<int>> {
    if rows == [] then [] else [Cost(rows[0], f)] + Costs(rows[1..], f)
  }

  lemma SpansApart(spans: seq<Span>, i: nat, j: nat, k: int)
    requires InOrder(spans) && i < |spans| && j < |spans| && Within(spans[i], k) && Within(spans[j], k)
    ensures i == j
  {
  }

  lemma NotInOther(spans: seq<Span>, i: nat, j: nat, k: nat)
    requires InOrder(spans) && i < |spans| && j < |spans| && spans[i].start < spans[i].stop <= k
    requires i + 1 < |spans| ==> k < spans[i + 1].start < spans[i + 1].stop
    ensures !Within(spans[j], k)
  {
    assert j < i ==> spans[j].stop < spans[i].start;
    assert j > i + 1 ==> spans[i + 1].stop < spans[j].start;
  }

  /** Between a measured group and the next there is no completed compaction. */
  lemma NothingBetween(log: Log, spans: seq<Span>, i: nat, k: nat)
    requires Measured(log, spans) && i < |spans| && spans[i].stop <= k < End(log, spans, i) <= |log|
    ensures !Counts(log[k], true)
  {
    forall j | 0 <= j < |spans| ensures !Within(spans[j], k) {
      assert IsGroup(log, spans[i]);
      assert i + 1 < |spans| ==> IsGroup(log, spans[i + 1]);
      NotInOther(spans, i, j, k);
    }
    assert !Covered(spans, k);
  }

  lemma NothingBefore(log: Log, spans: seq<Span>, k: nat)
    requires Measured(log, spans) && k < Begin(log, spans, 0) <= |log|
    ensures !Counts(log[k], true)
  {
    forall j | 0 <= j < |spans| ensures !Within(spans[j], k) {
      assert IsGroup(log, spans[0]);
      if j > 0 {
        assert spans[0].stop < spans[j].start;
      }
    }
    assert !Covered(spans, k);
  }

  /** From one measured group to the next: its own compactions, then only coding that counts. */
  lemma SegmentDone(log: Log, spans: seq<Span>, i: nat)
    requires Measured(log, spans) && i < |spans|
    ensures spans[i].start < spans[i].stop <= End(log, spans, i) <= |log|
    ensures Done(log[spans[i].start..End(log, spans, i)], true) == Done(log[spans[i].start..spans[i].stop], true)
    ensures Done(log[spans[i].start..End(log, spans, i)], false) == Done(log[spans[i].stop..End(log, spans, i)], false)
  {
    EndInRange(log, spans, i);
    var s, end := spans[i], End(log, spans, i);
    var own, rest := log[s.start..s.stop], log[s.stop..end];
    DoneAt(log, s.start, s.stop, end, true);
    DoneAt(log, s.start, s.stop, end, false);
    forall k | 0 <= k < |rest| ensures !Counts(rest[k], true) {
      NothingBetween(log, spans, i, s.stop + k);
    }
    NoneDone(rest, true);
    assert IsGroup(log, s);
    NoneDone(own, false);
  }

  function Begin(log: Log, spans: seq<Span>, i: nat): nat
    requires i <= |spans|
  {
    if i < |spans| then spans[i].start else |log|
  }

  /** One row and the segment of the log it accounts for. */
  lemma RowOfSegment(log: Log, spans: seq<Span>, i: nat)
    requires Measured(log, spans) && i < |spans|
    ensures spans[i].start <= End(log, spans, i) <= |log|
    ensures RowOf(log, spans, i).requests == |Done(log[spans[i].start..End(log, spans, i)], true)|
    ensures RowOf(log, spans, i).later == |Done(log[spans[i].start..End(log, spans, i)], false)|
    ensures forall f :: Cost(RowOf(log, spans, i), f) == WholeSum(Figures(Done(log[spans[i].start..End(log, spans, i)], true), f))
  {
    SegmentDone(log, spans, i);
  }

  lemma OneMoreRow(row: Row, rows: seq<Row>, f: Figure)
    ensures Requests([row] + rows) == row.requests + Requests(rows)
    ensures Later([row] + rows) == row.later + Later(rows)
    ensures Costs([row] + rows, f) == [Cost(row, f)] + Costs(rows, f)
    ensures WholeSum(Costs([row] + rows, f)) == Plus(Cost(row, f), WholeSum(Costs(rows, f)))
  {
    assert ([row] + rows)[1..] == rows;
  }

  lemma TailDone(log: Log, start: nat, end: nat, compaction: bool)
    requires start <= end <= |log|
    ensures Done(log[start..], compaction) == Done(log[start..end], compaction) + Done(log[end..], compaction)
  {
    DoneAt(log, start, end, |log|, compaction);
    assert log[start..|log|] == log[start..] && log[end..|log|] == log[end..];
  }

  lemma CountTail(log: Log, start: nat, end: nat, compaction: bool)
    requires start <= end <= |log|
    ensures |Done(log[start..], compaction)| == |Done(log[start..end], compaction)| + |Done(log[end..], compaction)|
  {
    TailDone(log, start, end, compaction);
  }

  lemma {:induction false} RequestsFrom(log: Log, spans: seq<Span>, i: nat)
    requires Measured(log, spans) && i <= |spans|
    ensures Begin(log, spans, i) <= |log|
    ensures Requests(RowsOf(log, spans, i)) == |Done(log[Begin(log, spans, i)..], true)|
    decreases |spans| - i
  {
    if i < |spans| {
      var start, end, row := spans[i].start, End(log, spans, i), RowOf(log, spans, i);
      RequestsFrom(log, spans, i + 1);
      RowOfSegment(log, spans, i);
      CountTail(log, start, end, true);
      OneMoreRow(row, RowsOf(log, spans, i + 1), Input);
      assert Requests(RowsOf(log, spans, i)) == row.requests + Requests(RowsOf(log, spans, i + 1));
    } else {
      assert log[|log|..] == [];
    }
  }

  lemma {:induction false} LaterFrom(log: Log, spans: seq<Span>, i: nat)
    requires Measured(log, spans) && i <= |spans|
    ensures Begin(log, spans, i) <= |log|
    ensures Later(RowsOf(log, spans, i)) == |Done(log[Begin(log, spans, i)..], false)|
    decreases |spans| - i
  {
    if i < |spans| {
      var start, end, row := spans[i].start, End(log, spans, i), RowOf(log, spans, i);
      LaterFrom(log, spans, i + 1);
      RowOfSegment(log, spans, i);
      CountTail(log, start, end, false);
      OneMoreRow(row, RowsOf(log, spans, i + 1), Input);
      assert Later(RowsOf(log, spans, i)) == row.later + Later(RowsOf(log, spans, i + 1));
    } else {
      assert log[|log|..] == [];
    }
  }

  lemma FiguresSplit(a: Log, b: Log, f: Figure)
    ensures WholeSum(Figures(a + b, f)) == Plus(WholeSum(Figures(a, f)), WholeSum(Figures(b, f)))
  {
    assert Figures(a + b, f) == Figures(a, f) + Figures(b, f);
    WholeSplit(Figures(a, f), Figures(b, f));
  }

  lemma {:induction false} CostsFrom(log: Log, spans: seq<Span>, i: nat, f: Figure)
    requires Measured(log, spans) && i <= |spans|
    ensures Begin(log, spans, i) <= |log|
    ensures WholeSum(Costs(RowsOf(log, spans, i), f)) == WholeSum(Figures(Done(log[Begin(log, spans, i)..], true), f))
    ensures |Costs(RowsOf(log, spans, i), f)| == |spans| - i
    decreases |spans| - i
  {
    if i < |spans| {
      var start, end := spans[i].start, End(log, spans, i);
      CostsFrom(log, spans, i + 1, f);
      RowOfSegment(log, spans, i);
      TailDone(log, start, end, true);
      FiguresSplit(Done(log[start..end], true), Done(log[end..], true), f);
      OneMoreRow(RowOf(log, spans, i), RowsOf(log, spans, i + 1), f);
    } else {
      assert log[|log|..] == [];
    }
  }

  /**
   Nothing is lost and nothing counted twice: the rows together have every completed compaction
   request, and every completed coding request stands before the first row or after exactly one.
  */
  lemma NothingLost(log: Log, spans: seq<Span>, f: Figure)
    requires Measured(log, spans)
    ensures Begin(log, spans, 0) <= |log|
    ensures Requests(RowsOf(log, spans, 0)) == |Done(log, true)|
    ensures |Done(log[..Begin(log, spans, 0)], false)| + Later(RowsOf(log, spans, 0)) == |Done(log, false)|
    ensures WholeSum(Costs(RowsOf(log, spans, 0), f)) == WholeSum(Figures(Done(log, true), f))
  {
    RequestsFrom(log, spans, 0);
    LaterFrom(log, spans, 0);
    CostsFrom(log, spans, 0, f);
    BeforeFirst(log, spans);
  }

  lemma BeforeFirst(log: Log, spans: seq<Span>)
    requires Measured(log, spans) && Begin(log, spans, 0) <= |log|
    ensures var first := Begin(log, spans, 0);
      && Done(log, true) == Done(log[first..], true)
      && Done(log, false) == Done(log[..first], false) + Done(log[first..], false)
  {
    var first := Begin(log, spans, 0);
    assert log[0..] == log && log[0..first] == log[..first];
    TailDone(log, 0, first, true);
    TailDone(log, 0, first, false);
    forall k | 0 <= k < first ensures !Counts(log[..first][k], true) {
      NothingBefore(log, spans, k);
    }
    NoneDone(log[..first], true);
  }

  /** A completed compaction request is in the group of exactly one row. */
  lemma InExactlyOneRow(log: Log, spans: seq<Span>, k: nat) returns (i: nat)
    requires Measured(log, spans) && k < |log| && Counts(log[k], true)
    ensures i < |spans| && Within(spans[i], k)
    ensures forall j | 0 <= j < |spans| && Within(spans[j], k) :: j == i
  {
    assert Covered(spans, k);
    i :| 0 <= i < |spans| && Within(spans[i], k);
    forall j | 0 <= j < |spans| && Within(spans[j], k) ensures j == i {
      SpansApart(spans, i, j, k);
    }
  }

  /** If every completed compaction reports a figure, the summary's total of it is exactly their sum. */
  lemma SummaryIsExact(log: Log, spans: seq<Span>, f: Figure)
    requires Measured(log, spans) && spans != []
    ensures WholeSum(Figures(Done(log, true), f)).Some? ==>
      KnownSum(Costs(RowsOf(log, spans, 0), f)) == WholeSum(Figures(Done(log, true), f))
  {
    CostsFrom(log, spans, 0, f);
    NothingLost(log, spans, f);
    WholeIsKnown(Costs(RowsOf(log, spans, 0), f));
  }
}
