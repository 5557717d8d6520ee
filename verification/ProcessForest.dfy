/**
 The processes below a child subreaper (scripts/bench/native_supervisor.py). Every member may fork,
 end, reap its own children or be adopted, any number of times and between any two system calls.
*/
module ProcessForest {
  import opened Wrappers

  /** `born` orders members by creation. A zombie stays until its parent waits for it. */
  datatype Process = Process(parent: int, born: nat, zombie: bool)

  /** The members of the command's tree; the supervisor itself is not one of them. */
  datatype Table = Table(procs: map<int, Process>, births: nat)

  /** Process `p` of the table ends and `heir` adopts its children. */
  function Ended(t: Table, p: int, heir: int): Table
    requires p in t.procs
  {
    t.(procs := map q | q in t.procs ::
         if q == p then t.procs[q].(zombie := true)
         else if t.procs[q].parent == p then t.procs[q].(parent := heir)
         else t.procs[q])
  }

  predicate MayAdopt(self: int, t: Table, p: int, heir: int)
    requires p in t.procs
  {
    heir == self
    || (heir in t.procs && !t.procs[heir].zombie && t.procs[heir].born < t.procs[p].born)
  }

  ghost predicate EnvStep(self: int, s: Table, t: Table) {
    || (exists p, c | p in s.procs && !s.procs[p].zombie && c != self && c !in s.procs ::
          t == Table(s.procs[c := Process(p, s.births, false)], s.births + 1))
    || (exists p, heir | p in s.procs && !s.procs[p].zombie && MayAdopt(self, s, p, heir) ::
          t == Ended(s, p, heir))
    || (exists p | p in s.procs && s.procs[p].zombie && s.procs[p].parent in s.procs ::
          t == s.(procs := s.procs - {p}))
  }

  ghost predicate Trace(self: int, run: seq<Table>, s: Table, t: Table) {
    && |run| > 0 && run[0] == s && run[|run| - 1] == t
    && forall i | 0 <= i < |run| - 1 :: EnvStep(self, run[i], run[i + 1])
  }

  ghost predicate Reaches(self: int, s: Table, t: Table) {
    exists run :: Trace(self, run, s, t)
  }

  /** Every member's parent is the supervisor or an older living member. */
  ghost predicate Inv(self: int, t: Table) {
    forall p | p in t.procs ::
      var q := t.procs[p].parent;
      && p != self && t.procs[p].born < t.births
      && (q == self || (q in t.procs && !t.procs[q].zombie && t.procs[q].born < t.procs[p].born))
  }

  predicate IsChild(self: int, t: Table, p: int) { p in t.procs && t.procs[p].parent == self }

  function Children(self: int, t: Table): set<int> {
    set p | p in t.procs && t.procs[p].parent == self
  }

  lemma EndedKeepsInv(self: int, t: Table, p: int, heir: int)
    requires Inv(self, t) && p in t.procs && !t.procs[p].zombie && MayAdopt(self, t, p, heir)
    ensures Inv(self, Ended(t, p, heir))
    ensures forall q | IsChild(self, t, q) :: IsChild(self, Ended(t, p, heir), q)
  {
    var t' := Ended(t, p, heir);
    assert t'.procs.Keys == t.procs.Keys;
    assert heir != p;
    forall q | q in t'.procs
      ensures t'.procs[q].parent == self || (t'.procs[q].parent in t'.procs
                && !t'.procs[t'.procs[q].parent].zombie
                && t'.procs[t'.procs[q].parent].born < t'.procs[q].born)
    {
    }
  }

  lemma LaunchKeepsInv(self: int, t: Table, p: int)
    requires Inv(self, t) && p != self && p !in t.procs
    ensures Inv(self, Table(t.procs[p := Process(self, t.births, false)], t.births + 1))
  {
    var t' := Table(t.procs[p := Process(self, t.births, false)], t.births + 1);
    forall q | q in t'.procs
      ensures q != self && t'.procs[q].born < t'.births
      ensures t'.procs[q].parent == self || (t'.procs[q].parent in t'.procs
                && !t'.procs[t'.procs[q].parent].zombie
                && t'.procs[t'.procs[q].parent].born < t'.procs[q].born)
    {
      assert q != p ==> t'.procs[q] == t.procs[q];
    }
  }

  lemma StepKeepsInv(self: int, s: Table, t: Table)
    requires Inv(self, s) && EnvStep(self, s, t)
    ensures Inv(self, t)
    ensures forall q | IsChild(self, s, q) :: IsChild(self, t, q)
  {
    if p, heir :| p in s.procs && !s.procs[p].zombie && MayAdopt(self, s, p, heir)
                  && t == Ended(s, p, heir) {
      EndedKeepsInv(self, s, p, heir);
    }
  }

  /** Only the supervisor removes its own children, so their process IDs cannot be recycled. */
  lemma {:induction false} TraceKeepsInv(self: int, run: seq<Table>, s: Table, t: Table)
    requires Inv(self, s) && Trace(self, run, s, t)
    ensures Inv(self, t)
    ensures forall q | IsChild(self, s, q) :: IsChild(self, t, q)
    decreases |run|
  {
    if |run| > 1 {
      StepKeepsInv(self, s, run[1]);
      TraceKeepsInv(self, run[1..], run[1], t);
    }
  }

  lemma {:induction false} TopAncestor(self: int, t: Table, p: int) returns (q: int)
    requires Inv(self, t) && p in t.procs
    ensures IsChild(self, t, q)
    decreases t.procs[p].born
  {
    if t.procs[p].parent == self {
      q := p;
    } else {
      q := TopAncestor(self, t, t.procs[p].parent);
    }
  }

  /** "No child" means "no descendant", however far the tree had spread. */
  lemma ChildlessIsEmpty(self: int, t: Table)
    requires Inv(self, t)
    ensures Children(self, t) == {} <==> t.procs == map[]
  {
    if t.procs != map[] {
      var p := MemberOf(t.procs.Keys);
      var q := TopAncestor(self, t, p);
      assert q in Children(self, t);
    }
  }

  /** Nothing can join a tree that has no member. */
  lemma EmptyStaysEmpty(self: int, s: Table, t: Table)
    requires s.procs == map[] && Reaches(self, s, t)
    ensures t == s
  {
    var run :| Trace(self, run, s, t);
    assert |run| == 1 by {
      if |run| > 1 {
        var _ := EnvStep(self, run[0], run[0 + 1]);
        assert false;
      }
    }
  }

  // How often a wait can find an ended child.

  /** Members only come by births. */
  lemma {:induction false} TraceCounts(self: int, run: seq<Table>, s: Table, t: Table)
    requires Trace(self, run, s, t)
    ensures s.births <= t.births && |t.procs| + s.births <= |s.procs| + t.births
    decreases |run|
  {
    if |run| > 1 {
      StepCounts(self, s, run[1]);
      TraceCounts(self, run[1..], run[1], t);
    }
  }

  lemma StepCounts(self: int, s: Table, t: Table)
    requires EnvStep(self, s, t)
    ensures s.births <= t.births && |t.procs| + s.births <= |s.procs| + t.births
  {
    if p, heir :| p in s.procs && !s.procs[p].zombie && MayAdopt(self, s, p, heir) && t == Ended(s, p, heir) {
      assert t.procs.Keys == s.procs.Keys;
      assert |t.procs.Keys| == |t.procs| && |s.procs.Keys| == |s.procs|;
    } else if p, c :| p in s.procs && !s.procs[p].zombie && c != self && c !in s.procs
                      && t == Table(s.procs[c := Process(p, s.births, false)], s.births + 1) {
      assert t.procs.Keys == s.procs.Keys + {c};
      assert |t.procs.Keys| == |t.procs| && |s.procs.Keys| == |s.procs|;
    } else {
      var p :| p in s.procs && t == s.(procs := s.procs - {p});
      OneLess(s.procs, p);
    }
  }

  lemma OneLess(procs: map<int, Process>, p: int)
    requires p in procs
    ensures |procs - {p}| == |procs| - 1
  {
    assert (procs - {p}).Keys == procs.Keys - {p};
    assert |(procs - {p}).Keys| == |procs - {p}| && |procs.Keys| == |procs|;
  }

  lemma ReachCounts(self: int, s: Table, t: Table)
    requires Reaches(self, s, t)
    ensures s.births <= t.births && |t.procs| + s.births <= |s.procs| + t.births
  {
    var run :| Trace(self, run, s, t);
    TraceCounts(self, run, s, t);
  }

  lemma ReachSelf(self: int, s: Table)
    ensures Reaches(self, s, s)
  {
    assert Trace(self, [s], s, s);
  }

  lemma ReachOn(self: int, s: Table, t: Table, u: Table)
    requires Reaches(self, s, t) && EnvStep(self, t, u)
    ensures Reaches(self, s, u)
  {
    var run :| Trace(self, run, s, t);
    assert Trace(self, run + [u], s, u);
  }

  lemma {:induction false} ReachTransitive(self: int, s: Table, t: Table, run: seq<Table>, u: Table)
    requires Reaches(self, s, t) && Trace(self, run, t, u)
    ensures Reaches(self, s, u)
    decreases |run|
  {
    if |run| > 1 {
      ReachOn(self, s, t, run[1]);
      ReachTransitive(self, s, run[1], run[1..], u);
    }
  }

  /** Steps of the members and then a wait that reaps a child. */
  ghost predicate ReapStep(self: int, s: Table, t: Table) {
    exists u, p :: Reaches(self, s, u) && IsChild(self, u, p) && u.procs[p].zombie && t == u.(procs := u.procs - {p})
  }

  ghost predicate ReapRun(self: int, run: seq<Table>, s: Table, t: Table) {
    && |run| > 0 && run[0] == s && run[|run| - 1] == t
    && forall i | 0 <= i < |run| - 1 :: ReapStep(self, run[i], run[i + 1])
  }

  /** `n` waits in a row that reap a child each. */
  ghost predicate Reaping(self: int, s: Table, t: Table, n: nat) {
    exists run :: ReapRun(self, run, s, t) && |run| == n + 1
  }

  lemma ReapStepCounts(self: int, s: Table, t: Table)
    requires ReapStep(self, s, t)
    ensures s.births <= t.births && 1 + |t.procs| + s.births <= |s.procs| + t.births
  {
    var u, p :| Reaches(self, s, u) && IsChild(self, u, p) && u.procs[p].zombie && t == u.(procs := u.procs - {p});
    ReachCounts(self, s, u);
    OneLess(u.procs, p);
  }

  lemma {:induction false} ReapRunCounts(self: int, run: seq<Table>, s: Table, t: Table)
    requires ReapRun(self, run, s, t)
    ensures s.births <= t.births && |run| - 1 + |t.procs| + s.births <= |s.procs| + t.births
    decreases |run|
  {
    if |run| > 1 {
      ReapStepCounts(self, run[0], run[0 + 1]);
      ReapRunCounts(self, run[1..], run[1], t);
    }
  }

  /** No more waits in a row can succeed than there were members and have been births. */
  lemma WaitsAreBounded(self: int, s: Table, t: Table, n: nat)
    requires Reaping(self, s, t, n)
    ensures s.births <= t.births && n + |t.procs| <= |s.procs| + (t.births - s.births)
  {
    var run :| ReapRun(self, run, s, t) && |run| == n + 1;
    ReapRunCounts(self, run, s, t);
  }

  lemma ReapNone(self: int, s: Table)
    ensures Reaping(self, s, s, 0)
  {
    assert ReapRun(self, [s], s, s);
  }

  lemma ReapFirst(self: int, s: Table, u: Table, t: Table, n: nat)
    requires ReapStep(self, s, u) && Reaping(self, u, t, n)
    ensures Reaping(self, s, t, n + 1)
  {
    var run :| ReapRun(self, run, u, t) && |run| == n + 1;
    assert ReapRun(self, [s] + run, s, t);
  }

  lemma ReapLast(self: int, s: Table, t: Table, u: Table, n: nat)
    requires Reaping(self, s, t, n) && ReapStep(self, t, u)
    ensures Reaping(self, s, u, n + 1)
  {
    var run :| ReapRun(self, run, s, t) && |run| == n + 1;
    assert ReapRun(self, run + [u], s, u);
  }

  lemma StepAfter(self: int, s: Table, u: Table, t: Table)
    requires Reaches(self, s, u) && ReapStep(self, u, t)
    ensures ReapStep(self, s, t)
  {
    var v, p :| Reaches(self, u, v) && IsChild(self, v, p) && v.procs[p].zombie && t == v.(procs := v.procs - {p});
    var run :| Trace(self, run, u, v);
    ReachTransitive(self, s, u, run, v);
  }

  lemma ReapAfter(self: int, s: Table, u: Table, t: Table, n: nat)
    requires Reaches(self, s, u) && Reaping(self, u, t, n) && n > 0
    ensures Reaping(self, s, t, n)
  {
    var run :| ReapRun(self, run, u, t) && |run| == n + 1;
    assert ReapStep(self, run[0], run[0 + 1]);
    StepAfter(self, s, u, run[1]);
    assert ReapRun(self, [s] + run[1..], s, t);
  }

  /** All members end and are reaped one after the other. */
  lemma {:induction false} AllReaped(self: int, s: Table)
    requires Inv(self, s)
    ensures Reaping(self, s, Table(map[], s.births), |s.procs|)
    decreases |s.procs|
  {
    if s.procs == map[] {
      assert s == Table(map[], s.births);
      ReapNone(self, s);
    } else {
      var t := OneReaped(self, s);
      AllReaped(self, t);
      ReapFirst(self, s, t, Table(map[], s.births), |t.procs|);
    }
  }

  /** A child of the supervisor ends, if it has not yet, and is reaped. */
  lemma OneReaped(self: int, s: Table) returns (t: Table)
    requires Inv(self, s) && s.procs != map[]
    ensures ReapStep(self, s, t) && Inv(self, t) && t.births == s.births && |t.procs| == |s.procs| - 1
  {
    ChildlessIsEmpty(self, s);
    var p := MemberOf(Children(self, s));
    var u := if s.procs[p].zombie then s else Ended(s, p, self);
    ReachSelf(self, s);
    if !s.procs[p].zombie {
      EndedKeepsInv(self, s, p, self);
      ReachOn(self, s, s, u);
    }
    t := u.(procs := u.procs - {p});
    assert u.procs.Keys == s.procs.Keys && |u.procs.Keys| == |u.procs| && |s.procs.Keys| == |s.procs|;
    OneLess(u.procs, p);
    ReapedKeepsInv(self, u, p);
  }

  lemma ReapedKeepsInv(self: int, t: Table, p: int)
    requires Inv(self, t) && p in t.procs && t.procs[p].zombie
    ensures Inv(self, t.(procs := t.procs - {p}))
  {
    var t' := t.(procs := t.procs - {p});
    forall q | q in t'.procs
      ensures q != self && t'.procs[q].born < t'.births
      ensures t'.procs[q].parent == self || (t'.procs[q].parent in t'.procs
                && !t'.procs[t'.procs[q].parent].zombie
                && t'.procs[t'.procs[q].parent].born < t'.procs[q].born)
    {
      assert t'.procs[q] == t.procs[q] && q in t.procs;
    }
  }

  lemma {:induction false} Unused(keys: set<int>) returns (c: int)
    ensures forall k | k in keys :: k < c
    decreases |keys|
  {
    if keys == {} {
      c := 0;
    } else {
      var k := MemberOf(keys);
      var d := Unused(keys - {k});
      c := if k < d then d else k + 1;
      assert forall x | x in keys :: x == k || x in keys - {k};
    }
  }

  lemma ForkStep(self: int, s: Table, p: int, c: int)
    requires p in s.procs && !s.procs[p].zombie && c != self && c !in s.procs
    ensures EnvStep(self, s, Table(s.procs[c := Process(p, s.births, false)], s.births + 1))
  {
  }

  /** A living member may fork any number of times. */
  lemma {:induction false} Forked(self: int, s: Table, p: int, b: nat) returns (t: Table)
    requires Inv(self, s) && p in s.procs && !s.procs[p].zombie
    ensures Reaches(self, s, t) && Inv(self, t) && p in t.procs && !t.procs[p].zombie
    ensures t.births == s.births + b && |t.procs| == |s.procs| + b
  {
    if b == 0 {
      t := s;
      ReachSelf(self, s);
    } else {
      var r := Forked(self, s, p, b - 1);
      var c := Unused(r.procs.Keys + {self});
      t := Table(r.procs[c := Process(p, r.births, false)], r.births + 1);
      ForkStep(self, r, p, c);
      ReachOn(self, s, r, t);
      StepKeepsInv(self, r, t);
      assert t.procs.Keys == r.procs.Keys + {c};
      assert |t.procs.Keys| == |t.procs| && |r.procs.Keys| == |r.procs|;
    }
  }

  /** The bound is attained from every tree, and for every number of births that a living member can give. */
  lemma WaitsAttainTheirBound(self: int, s: Table, b: nat)
    requires Inv(self, s) && (b > 0 ==> exists p :: p in s.procs && !s.procs[p].zombie)
    ensures Reaping(self, s, Table(map[], s.births + b), |s.procs| + b)
  {
    if b == 0 {
      AllReaped(self, s);
    } else {
      var p :| p in s.procs && !s.procs[p].zombie;
      var t := Forked(self, s, p, b);
      AllReaped(self, t);
      ReapAfter(self, s, t, Table(map[], s.births + b), |s.procs| + b);
    }
  }

  /** The tree is a single process, alive and a child of the supervisor. */
  predicate Single(self: int, t: Table, p: int) {
    t.procs.Keys == {p} && IsChild(self, t, p) && !t.procs[p].zombie && p != self && t.procs[p].born < t.births
  }

  /** It forks and ends, its child is adopted, and the wait finds it. */
  lemma ForksAndEnds(self: int, s: Table, p: int) returns (c: int, t: Table)
    requires Single(self, s, p)
    ensures ReapStep(self, s, t) && Single(self, t, c) && t.births == s.births + 1
  {
    c := if p + 1 != self then p + 1 else p + 2;
    var t1 := Table(s.procs[c := Process(p, s.births, false)], s.births + 1);
    var t2 := Ended(t1, p, self);
    ReachSelf(self, s);
    ForkStep(self, s, p, c);
    ReachOn(self, s, s, t1);
    ReachOn(self, s, t1, t2);
    t := t2.(procs := t2.procs - {p});
  }

  /**
   A tree that never has more than two members can let any number of waits in a row find an ended
   child: the inner loop, which does not look at the clock, has no time limit.
  */
  lemma {:induction false} WaitsWithoutEnd(self: int, s: Table, p: int, n: nat) returns (c: int, t: Table)
    requires Single(self, s, p)
    ensures Reaping(self, s, t, n) && Single(self, t, c)
  {
    if n == 0 {
      c, t := p, s;
      ReapNone(self, s);
    } else {
      var r;
      c, r := WaitsWithoutEnd(self, s, p, n - 1);
      c, t := ForksAndEnds(self, r, c);
      ReapLast(self, s, r, t, n - 1);
    }
  }
}
