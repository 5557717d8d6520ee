/**
 The order in which a campaign runs its harnesses (scripts/bench/campaign.py, `schedule`).

 The plan is a list of blocks, one for each task of each repetition, and every block has all the
 harnesses, rotated by one more than the block before. That places every run at an index that can
 be computed, from which it follows that no run is missing or repeated and that the harnesses take
 turns at every position of a block.
*/
module CampaignSchedule {
  import opened Sequences
  import opened Wrappers

  datatype Slot = Slot(harness: string, task: string, rep: int)

  datatype Error = BadHarnesses | BadTasks

  // Uniform parts put end to end.

  function Concat<T>(parts: seq<seq<T>>): seq<T> {
    if parts == [] then [] else Concat(parts[..|parts| - 1]) + parts[|parts| - 1]
  }

  lemma ConcatOn<T>(parts: seq<seq<T>>, i: nat)
    requires i < |parts|
    ensures Concat(parts[..i + 1]) == Concat(parts[..i]) + parts[i]
    ensures parts[..|parts|] == parts
  {
    assert parts[..i + 1][..i] == parts[..i];
  }

  predicate Uniform<T>(parts: seq<seq<T>>, n: nat) { forall i | 0 <= i < |parts| :: |parts[i]| == n }

  lemma {:induction false} ConcatLength<T>(parts: seq<seq<T>>, n: nat)
    requires Uniform(parts, n)
    ensures |Concat(parts)| == |parts| * n
  {
    if parts != [] {
      ConcatLength(parts[..|parts| - 1], n);
      assert (|parts| - 1) * n + n == |parts| * n;
    }
  }

  lemma {:induction false} ConcatAt<T>(parts: seq<seq<T>>, n: nat, i: nat, j: nat)
    requires Uniform(parts, n) && i < |parts| && j < n
    ensures i * n + j < |Concat(parts)| == |parts| * n
    ensures Concat(parts)[i * n + j] == parts[i][j]
  {
    ConcatLength(parts, n);
    var last := |parts| - 1;
    ConcatLength(parts[..last], n);
    if i == last {
      assert |Concat(parts[..last])| == last * n;
    } else {
      ConcatAt(parts[..last], n, i, j);
      assert parts[..last][i] == parts[i];
    }
    assert (i + 1) * n <= |parts| * n;
    assert (i + 1) * n == i * n + n;
  }

  lemma Position(n: nat, count: nat, k: nat) returns (i: nat, j: nat)
    requires k < count * n
    ensures i < count && j < n && k == i * n + j
  {
    assert n > 0;
    i, j := k / n, k % n;
    assert k == n * i + j;
    assert n * (i - count) == n * i - count * n;
    MulBound(n, i - count);
  }

  // Rotations.

  lemma MulBound(n: int, d: int)
    requires n > 0
    ensures d >= 1 ==> n * d >= n
    ensures d <= -1 ==> n * d <= -n
  {
    if d >= 1 {
      assert n * d == n * (d - 1) + n;
    } else if d <= -1 {
      assert n * d == n * (d + 1) - n;
    }
  }

  lemma DivMod(x: int, n: int, q: int, r: int)
    requires 0 <= r < n && x == n * q + r
    ensures x / n == q && x % n == r
  {
    var k, m := x / n, x % n;
    assert x == n * k + m;
    assert n * (k - q) == n * k - n * q;
    MulBound(n, k - q);
  }

  lemma ModDistinct(a: int, x: int, y: int, n: int)
    requires x < y < x + n
    ensures (a + x) % n != (a + y) % n
  {
    var q, r := (a + x) / n, (a + x) % n;
    assert a + x == n * q + r;
    if r + (y - x) < n {
      DivMod(a + y, n, q, r + (y - x));
    } else {
      assert n * (q + 1) == n * q + n;
      DivMod(a + y, n, q + 1, r + (y - x) - n);
    }
  }

  /** Of any n consecutive numbers one has the given remainder. */
  lemma ModHits(a: int, from: int, n: int, target: int) returns (x: int)
    requires 0 <= target < n
    ensures from <= x < from + n && (a + x) % n == target
  {
    var d := (target - a - from) % n;
    x := from + d;
    var q := (target - a - from) / n;
    assert target - a - from == n * q + d;
    assert n * (-q) == -(n * q);
    DivMod(a + x, n, -q, target);
  }

  function Rotated<T>(s: seq<T>, first: nat): (r: seq<T>)
    requires first <= |s|
    ensures |r| == |s|
  {
    s[first..] + s[..first]
  }

  lemma RotatedAt<T>(s: seq<T>, first: nat, p: nat)
    requires first < |s| && p < |s|
    ensures Rotated(s, first)[p] == s[(first + p) % |s|]
  {
    if first + p < |s| {
      DivMod(first + p, |s|, 0, first + p);
    } else {
      DivMod(first + p, |s|, 1, first + p - |s|);
    }
  }

  // The plan.

  /** The harness run at position `p` of a task's block. */
  function HarnessAt(harnesses: seq<string>, offset: nat, t: nat, rep: int, p: nat): string
    requires harnesses != []
  {
    harnesses[(offset + t + rep + p) % |harnesses|]
  }

  function Block(harnesses: seq<string>, offset: nat, tasks: seq<string>, t: int, rep: int): (b: seq<Slot>)
    requires harnesses != [] && 0 <= t < |tasks|
    ensures |b| == |harnesses|
  {
    var order := Rotated(harnesses, (offset + t + rep) % |harnesses|);
    seq(|order|, p requires 0 <= p < |order| => Slot(order[p], tasks[t], rep))
  }

  ghost function Blocks(harnesses: seq<string>, offset: nat, tasks: seq<string>, rep: int): (b: seq<seq<Slot>>)
    requires harnesses != []
    ensures |b| == |tasks| && Uniform(b, |harnesses|)
  {
    seq(|tasks|, t requires 0 <= t < |tasks| => Block(harnesses, offset, tasks, t, rep))
  }

  ghost function Parts(harnesses: seq<string>, offset: nat, tasks: seq<string>, reps: seq<int>): (b: seq<seq<Slot>>)
    requires harnesses != []
    ensures |b| == |reps|
  {
    seq(|reps|, r requires 0 <= r < |reps| => Concat(Blocks(harnesses, offset, tasks, reps[r])))
  }

  ghost function Plan(harnesses: seq<string>, offset: nat, tasks: seq<string>, reps: seq<int>): seq<Slot>
    requires harnesses != []
  {
    Concat(Parts(harnesses, offset, tasks, reps))
  }

  function Index(h: nat, n: nat, r: nat, t: nat, p: nat): nat { r * (n * h) + (t * h + p) }

  lemma PartsUniform(harnesses: seq<string>, offset: nat, tasks: seq<string>, reps: seq<int>)
    requires harnesses != []
    ensures Uniform(Parts(harnesses, offset, tasks, reps), |tasks| * |harnesses|)
  {
    var parts := Parts(harnesses, offset, tasks, reps);
    forall r | 0 <= r < |parts| ensures |parts[r]| == |tasks| * |harnesses| {
      ConcatLength(Blocks(harnesses, offset, tasks, reps[r]), |harnesses|);
    }
  }

  lemma BlockAt(harnesses: seq<string>, offset: nat, tasks: seq<string>, t: nat, rep: int, p: nat)
    requires t < |tasks| && p < |harnesses|
    ensures Block(harnesses, offset, tasks, t, rep)[p] == Slot(HarnessAt(harnesses, offset, t, rep, p), tasks[t], rep)
  {
    var n := |harnesses|;
    var a := offset + t + rep;
    RotatedAt(harnesses, a % n, p);
    var f, k := (a % n + p) % n, (a % n + p) / n;
    assert a == n * (a / n) + a % n && a % n + p == n * k + f;
    assert n * (a / n + k) == n * (a / n) + n * k;
    DivMod(a + p, n, a / n + k, f);
  }

  /** Where each run stands: repetition by repetition, task by task, in contiguous blocks. */
  lemma PlanAt(harnesses: seq<string>, offset: nat, tasks: seq<string>, reps: seq<int>, r: nat, t: nat, p: nat)
    requires r < |reps| && t < |tasks| && p < |harnesses|
    ensures |Plan(harnesses, offset, tasks, reps)| == |reps| * (|tasks| * |harnesses|)
    ensures Index(|harnesses|, |tasks|, r, t, p) < |Plan(harnesses, offset, tasks, reps)|
    ensures Index(|harnesses|, |tasks|, r, t, p) == r * (|tasks| * |harnesses|) + (t * |harnesses| + p)
    ensures Plan(harnesses, offset, tasks, reps)[Index(|harnesses|, |tasks|, r, t, p)] ==
      Slot(harnesses[(offset + t + reps[r] + p) % |harnesses|], tasks[t], reps[r])
  {
    PartsUniform(harnesses, offset, tasks, reps);
    ConcatAt(Blocks(harnesses, offset, tasks, reps[r]), |harnesses|, t, p);
    ConcatAt(Parts(harnesses, offset, tasks, reps), |tasks| * |harnesses|, r, t * |harnesses| + p);
    BlockAt(harnesses, offset, tasks, t, reps[r], p);
  }

  /** Every run of the plan has such a place. */
  lemma PlaceOf(harnesses: seq<string>, offset: nat, tasks: seq<string>, reps: seq<int>, k: nat)
    returns (r: nat, t: nat, p: nat)
    requires harnesses != [] && k < |Plan(harnesses, offset, tasks, reps)|
    ensures r < |reps| && t < |tasks| && p < |harnesses| && k == Index(|harnesses|, |tasks|, r, t, p)
  {
    PartsUniform(harnesses, offset, tasks, reps);
    ConcatLength(Parts(harnesses, offset, tasks, reps), |tasks| * |harnesses|);
    var j;
    r, j := Position(|tasks| * |harnesses|, |reps|, k);
    t, p := Position(|harnesses|, |tasks|, j);
  }

  /** The runs of one repetition: a rotated block per task. */
  method Repetition(harnesses: seq<string>, offset: nat, tasks: seq<string>, rep: int) returns (runs: seq<Slot>)
    requires harnesses != []
    ensures runs == Concat(Blocks(harnesses, offset, tasks, rep))
  {
    runs := [];
    ghost var blocks := Blocks(harnesses, offset, tasks, rep);
    for t := 0 to |tasks|
      invariant runs == Concat(blocks[..t])
    {
      var first := (offset + t + rep) % |harnesses|;
      var order := harnesses[first..] + harnesses[..first];
      var block := seq(|order|, p requires 0 <= p < |order| => Slot(order[p], tasks[t], rep));
      assert block == blocks[t];
      ConcatOn(blocks, t);
      runs := runs + block;
    }
    assert blocks[..|tasks|] == blocks;
  }

  method Schedule(tasks: seq<string>, reps: seq<int>, harnesses: seq<string>, digest: nat)
    returns (result: Result<seq<Slot>, Error>)
    ensures result == if harnesses == [] || !NoRepeats(harnesses) then Err(BadHarnesses)
                      else if !NoRepeats(tasks) || !NoRepeats(reps) then Err(BadTasks)
                      else Ok(Plan(harnesses, digest % |harnesses|, tasks, reps))
  {
    if harnesses == [] || !NoRepeats(harnesses) {
      return Err(BadHarnesses);
    }
    if !NoRepeats(tasks) || !NoRepeats(reps) {
      return Err(BadTasks);
    }
    var offset := digest % |harnesses|;
    var plan: seq<Slot> := [];
    ghost var parts := Parts(harnesses, offset, tasks, reps);
    for r := 0 to |reps|
      invariant plan == Concat(parts[..r])
    {
      var runs := Repetition(harnesses, offset, tasks, reps[r]);
      ConcatOn(parts, r);
      plan := plan + runs;
    }
    assert parts[..|reps|] == parts;
    return Ok(plan);
  }

  /** The plan has every harness, task and repetition together exactly once, and nothing else. */
  lemma EveryRunOnce(harnesses: seq<string>, offset: nat, tasks: seq<string>, reps: seq<int>)
    requires harnesses != [] && NoRepeats(harnesses) && NoRepeats(tasks) && NoRepeats(reps)
    ensures NoRepeats(Plan(harnesses, offset, tasks, reps))
    ensures forall s :: s in Plan(harnesses, offset, tasks, reps) <==>
      s.harness in harnesses && s.task in tasks && s.rep in reps
  {
    var plan := Plan(harnesses, offset, tasks, reps);
    forall i, j | 0 <= i < j < |plan| ensures plan[i] != plan[j] {
      var r, t, p := PlaceOf(harnesses, offset, tasks, reps, i);
      var r', t', p' := PlaceOf(harnesses, offset, tasks, reps, j);
      PlanAt(harnesses, offset, tasks, reps, r, t, p);
      PlanAt(harnesses, offset, tasks, reps, r', t', p');
      if r == r' && t == t' {
        ModDistinct(offset + t + reps[r], if p < p' then p else p', if p < p' then p' else p, |harnesses|);
      }
    }
    forall s ensures s in plan <==> s.harness in harnesses && s.task in tasks && s.rep in reps {
      if s in plan {
        var k :| 0 <= k < |plan| && plan[k] == s;
        var r, t, p := PlaceOf(harnesses, offset, tasks, reps, k);
        PlanAt(harnesses, offset, tasks, reps, r, t, p);
      }
      if s.harness in harnesses && s.task in tasks && s.rep in reps {
        var h :| 0 <= h < |harnesses| && harnesses[h] == s.harness;
        var t :| 0 <= t < |tasks| && tasks[t] == s.task;
        var r :| 0 <= r < |reps| && reps[r] == s.rep;
        var p := ModHits(offset + t + reps[r], 0, |harnesses|, h);
        PlanAt(harnesses, offset, tasks, reps, r, t, p);
      }
    }
  }

  /**
   Balance: within a repetition, of as many consecutive tasks as there are harnesses, each harness
   runs at each position in exactly one.
  */
  lemma LatinWindow(harnesses: seq<string>, offset: nat, tasks: seq<string>, reps: seq<int>, r: nat, from: nat, p: nat, h: string)
    returns (t: nat)
    requires NoRepeats(harnesses) && h in harnesses && r < |reps|
    requires from + |harnesses| <= |tasks| && p < |harnesses|
    ensures from <= t < from + |harnesses|
    ensures forall u | from <= u < from + |harnesses| ::
      && Index(|harnesses|, |tasks|, r, u, p) < |Plan(harnesses, offset, tasks, reps)|
      && (Plan(harnesses, offset, tasks, reps)[Index(|harnesses|, |tasks|, r, u, p)].harness == h <==> u == t)
  {
    var n := |harnesses|;
    var i :| 0 <= i < n && harnesses[i] == h;
    var a := offset + reps[r] + p;
    t := ModHits(a, from, n, i);
    forall u | from <= u < from + n
      ensures Index(n, |tasks|, r, u, p) < |Plan(harnesses, offset, tasks, reps)|
      ensures Plan(harnesses, offset, tasks, reps)[Index(n, |tasks|, r, u, p)].harness == h <==> u == t
    {
      PlanAt(harnesses, offset, tasks, reps, r, u, p);
      assert offset + u + reps[r] + p == a + u;
      if u != t {
        ModDistinct(a, if u < t then u else t, if u < t then t else u, n);
      }
    }
  }

  /**
   And across repetitions: of as many consecutive ones as there are harnesses, each harness runs at
   each position of a task's block in exactly one.
  */
  lemma LatinRepetitions(harnesses: seq<string>, offset: nat, tasks: seq<string>, reps: seq<int>, from: nat, t: nat, p: nat, h: string)
    returns (r: nat)
    requires NoRepeats(harnesses) && h in harnesses && t < |tasks| && p < |harnesses|
    requires from + |harnesses| <= |reps|
    requires forall v | from <= v < from + |harnesses| :: reps[v] == reps[from] + (v - from)
    ensures from <= r < from + |harnesses|
    ensures forall v | from <= v < from + |harnesses| ::
      && Index(|harnesses|, |tasks|, v, t, p) < |Plan(harnesses, offset, tasks, reps)|
      && (Plan(harnesses, offset, tasks, reps)[Index(|harnesses|, |tasks|, v, t, p)].harness == h <==> v == r)
  {
    var n := |harnesses|;
    var i :| 0 <= i < n && harnesses[i] == h;
    var a := offset + t + p + reps[from] - from;
    r := ModHits(a, from, n, i);
    forall v | from <= v < from + n
      ensures Index(n, |tasks|, v, t, p) < |Plan(harnesses, offset, tasks, reps)|
      ensures Plan(harnesses, offset, tasks, reps)[Index(n, |tasks|, v, t, p)].harness == h <==> v == r
    {
      PlanAt(harnesses, offset, tasks, reps, v, t, p);
      assert offset + t + reps[v] + p == a + v;
      if v != r {
        ModDistinct(a, if v < r then v else r, if v < r then r else v, n);
      }
    }
  }

  /** The tasks of `from..to` that a harness leads in a repetition. */
  ghost function Led(harnesses: seq<string>, offset: nat, rep: int, h: string, from: nat, to: nat): set<int>
    requires harnesses != []
  {
    set t | from <= t < to && HarnessAt(harnesses, offset, t, rep, 0) == h
  }

  lemma AtMostOne(s: set<int>, x: int)
    requires s <= {x}
    ensures |s| <= 1
  {
    if x in s {
      assert s == {x};
    } else {
      assert s == {};
    }
  }

  /** Of H consecutive tasks a harness leads exactly one. */
  lemma OneLeadPerWindow(harnesses: seq<string>, offset: nat, rep: int, h: string, from: nat) returns (t: nat)
    requires NoRepeats(harnesses) && h in harnesses
    ensures from <= t < from + |harnesses|
    ensures forall u | from <= u < from + |harnesses| :: HarnessAt(harnesses, offset, u, rep, 0) == h <==> u == t
  {
    var n := |harnesses|;
    var i :| 0 <= i < n && harnesses[i] == h;
    t := ModHits(offset + rep, from, n, i);
    forall u | from <= u < from + n ensures HarnessAt(harnesses, offset, u, rep, 0) == h <==> u == t {
      assert offset + u + rep + 0 == offset + rep + u;
      if u != t {
        ModDistinct(offset + rep, if u < t then u else t, if u < t then t else u, n);
      }
    }
  }

  lemma LedByWindow(harnesses: seq<string>, offset: nat, rep: int, h: string, from: nat, count: nat)
    requires NoRepeats(harnesses) && h in harnesses
    ensures var led := |Led(harnesses, offset, rep, h, from, from + count)|;
      if count < |harnesses| then led <= 1 && (count == 0 ==> led == 0)
      else led == 1 + |Led(harnesses, offset, rep, h, from + |harnesses|, from + count)|
  {
    var n := |harnesses|;
    var all := Led(harnesses, offset, rep, h, from, from + count);
    var t := OneLeadPerWindow(harnesses, offset, rep, h, from);
    if count < n {
      AtMostOne(all, t);
      assert count == 0 ==> all == {};
    } else {
      assert all == {t} + Led(harnesses, offset, rep, h, from + n, from + count);
    }
  }

  /** The tasks of `from..to` whose block in the plan begins with this harness. */
  ghost function Leads(plan: seq<Slot>, h: nat, n: nat, r: nat, harness: string, from: nat, to: nat): set<int> {
    set t | from <= t < to && Index(h, n, r, t, 0) < |plan| && plan[Index(h, n, r, t, 0)].harness == harness
  }

  /** Of any T consecutive tasks of a repetition each of H harnesses leads T / H, rounded down or up. */
  lemma LeadsItsShare(harnesses: seq<string>, offset: nat, tasks: seq<string>, reps: seq<int>, r: nat, h: string, from: nat, count: nat)
    requires NoRepeats(harnesses) && h in harnesses && r < |reps| && from + count <= |tasks|
    ensures var led := Leads(Plan(harnesses, offset, tasks, reps), |harnesses|, |tasks|, r, h, from, from + count);
      count / |harnesses| <= |led| <= (count + |harnesses| - 1) / |harnesses|
  {
    var led := Leads(Plan(harnesses, offset, tasks, reps), |harnesses|, |tasks|, r, h, from, from + count);
    forall t | from <= t < from + count ensures t in led <==> HarnessAt(harnesses, offset, t, reps[r], 0) == h {
      PlanAt(harnesses, offset, tasks, reps, r, t, 0);
    }
    assert led == Led(harnesses, offset, reps[r], h, from, from + count);
    LedItsShare(harnesses, offset, reps[r], h, from, count);
  }

  lemma {:induction false} LedItsShare(harnesses: seq<string>, offset: nat, rep: int, h: string, from: nat, count: nat)
    requires NoRepeats(harnesses) && h in harnesses
    ensures count / |harnesses| <= |Led(harnesses, offset, rep, h, from, from + count)|
    ensures |Led(harnesses, offset, rep, h, from, from + count)| <= (count + |harnesses| - 1) / |harnesses|
    decreases count
  {
    var n := |harnesses|;
    LedByWindow(harnesses, offset, rep, h, from, count);
    Quotients(count, n);
    if count >= n {
      LedItsShare(harnesses, offset, rep, h, from + n, count - n);
    }
  }

  lemma Quotients(d: nat, n: int)
    requires n > 0
    ensures d < n ==> d / n == 0 && (0 < d ==> (d + n - 1) / n == 1) && (n - 1) / n == 0
    ensures d >= n ==> d / n == (d - n) / n + 1 && (d + n - 1) / n == (d - n + n - 1) / n + 1
  {
    if d < n {
      DivMod(d, n, 0, d);
      DivMod(n - 1, n, 0, n - 1);
      if 0 < d {
        DivMod(d + n - 1, n, 1, d - 1);
      }
    } else {
      OneMore(d - n, n);
      OneMore(d - 1, n);
    }
  }

  lemma OneMore(d: int, n: int)
    requires n > 0
    ensures (d + n) / n == d / n + 1
  {
    var q, r := d / n, d % n;
    assert d == n * q + r;
    assert n * (q + 1) == n * q + n;
    DivMod(d + n, n, q + 1, r);
  }
}
