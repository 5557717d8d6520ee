/** Ending a command together with everything it started (scripts/bench/native_supervisor.py). */
module NativeSupervisor {
  // The supervisor is a child subreaper: a process whose parent ends is adopted by the supervisor
  // or by an older living member of the tree. Module ProcessForest says what the members may do.

  import opened ProcessForest
  import opened Wrappers

  /** What waitpid(-1, WNOHANG) found. */
  datatype Wait = NoChild | NoneEnded | Reaped(pid: int)

  /** `n` waits that reaped a child each, with the members acting before, between and after them. */
  ghost predicate Waited(self: int, s: Table, t: Table, n: nat) {
    exists r :: Reaping(self, s, r, n) && Reaches(self, r, t)
  }

  lemma WaitedCounts(self: int, s: Table, t: Table, n: nat)
    requires Waited(self, s, t, n)
    ensures s.births <= t.births && n + |t.procs| + s.births <= |s.procs| + t.births
  {
    var r :| Reaping(self, s, r, n) && Reaches(self, r, t);
    WaitsAreBounded(self, s, r, n);
    ReachCounts(self, r, t);
  }

  class Kernel {
    const self: int
    var table: Table
    /** Clock ticks; the supervisor's pause is one tick. */
    var now: nat
    /** The processes that the supervisor has signalled so far. */
    ghost var signals: set<int>
    /** How many steps the members still take in the run observed; every finite run has a number. */
    ghost var budget: nat
    /** Signals are permitted and work at once, and the list of children can be read. */
    ghost const obliging: bool
    /** The longest time between two calls of the supervisor, its pauses apart. */
    ghost const lag: nat

    constructor (self: int, ghost obliging: bool, ghost lag: nat)
      ensures this.self == self && this.obliging == obliging && this.lag == lag && table == Table(map[], 0)
    {
      this.obliging := obliging;
      this.lag := lag;
      this.self := self;
      table := Table(map[], 0);
      now := 0;
    }

    /** Any number of steps of the members, and time. Callers may assume no more than this. */
    method Interfere()
      requires Inv(self, table)
      modifies this`table, this`now, this`budget
      ensures Reaches(self, old(table), table) && Inv(self, table)
      ensures forall q | IsChild(self, old(table), q) :: IsChild(self, table, q)
      ensures old(now) <= now <= old(now) + lag && budget <= old(budget)
      ensures budget == old(budget) ==> table == old(table) && now == old(now)
      ensures old(table).procs == map[] ==> table.procs == map[]
    {
      assert Trace(self, [table], table, table);
    }

    method WaitAny() returns (w: Wait)
      requires Inv(self, table)
      modifies this`table
      ensures Inv(self, table)
      ensures w.NoChild? <==> Children(self, old(table)) == {}
      ensures w.Reaped? ==>
        IsChild(self, old(table), w.pid) && old(table).procs[w.pid].zombie
      ensures w.NoneEnded? ==>
        forall p | IsChild(self, table, p) :: !table.procs[p].zombie
      ensures table == if w.Reaped? then old(table).(procs := old(table).procs - {w.pid})
                       else old(table)
    {
      var children := Children(self, table);
      if children == {} {
        return NoChild;
      }
      var ended := set p | p in children && table.procs[p].zombie;
      if ended == {} {
        forall p | IsChild(self, table, p) ensures !table.procs[p].zombie {
          assert p in children && p !in ended;
        }
        return NoneEnded;
      }
      ghost var some := MemberOf(ended);
      var p :| p in ended;
      table := table.(procs := table.procs - {p});
      return Reaped(p);
    }

    /** The command itself; the supervisor starts nothing else. */
    method Launch(p: int)
      requires Inv(self, table) && p != self && p !in table.procs
      modifies this`table
      ensures Inv(self, table) && IsChild(self, table, p)
    {
      LaunchKeepsInv(self, table, p);
      table := Table(table.procs[p := Process(self, table.births, false)], table.births + 1);
    }

    /**
     Waits for one child for at most `limit`, while the members act, and removes it if it has
     ended. It gives up before the limit only when a signal interrupts it.
    */
    method Await(p: int, limit: nat, interrupted: bool) returns (ended: bool)
      requires Inv(self, table) && IsChild(self, table, p)
      modifies this`table, this`now, this`budget
      ensures Inv(self, table) && Waited(self, old(table), table, if ended then 1 else 0)
      ensures if ended then p !in table.procs else IsChild(self, table, p) && !table.procs[p].zombie
      ensures old(now) <= now <= old(now) + limit + lag && budget <= old(budget)
      ensures !ended && !interrupted ==> old(now) + limit <= now
      ensures budget == old(budget) ==> ended == old(table).procs[p].zombie
      ensures budget == old(budget) ==> table == if ended then old(table).(procs := old(table).procs - {p}) else old(table)
    {
      ReachSelf(self, table);
      ReapNone(self, table);
      ended := table.procs[p].zombie;
      if ended {
        ghost var before := table;
        assert forall q | q in table.procs :: table.procs[q].parent != p;
        table := table.(procs := table.procs - {p});
        assert ReapStep(self, before, table);
        ReapLast(self, before, before, table, 0);
        ReachSelf(self, table);
      } else if !interrupted {
        now := now + limit;
      }
    }

    /** The list of current children, if it can be read. */
    method ReadChildren() returns (children: Option<set<int>>)
      ensures children.Some? ==> children.value == Children(self, table)
      ensures obliging ==> children.Some?
    {
      return Some(Children(self, table));
    }

    /**
     SIGKILL, which may be refused and may work only later. The only processes ever signalled are
     current children of the supervisor.
    */
    method Kill(p: int) returns (sent: bool)
      requires Inv(self, table) && IsChild(self, table, p)
      modifies this`table, this`signals
      ensures Inv(self, table)
      ensures signals == if sent then old(signals) + {p} else old(signals)
      ensures forall q | IsChild(self, old(table), q) :: IsChild(self, table, q)
      ensures table.procs.Keys == old(table).procs.Keys && table.births == old(table).births
      ensures forall q | q in old(table).procs && old(table).procs[q].zombie :: table.procs[q].zombie
      ensures obliging ==> sent && table.procs[p].zombie
    {
      if !table.procs[p].zombie {
        EndedKeepsInv(self, table, p, self);
        table := Ended(table, p, self);
      }
      signals := signals + {p};
      return true;
    }

    method Pause()
      modifies this`now
      ensures now == old(now) + 1
    {
      now := now + 1;
    }
  }

  // Time. Every call takes at most `lag`.

  function Calls(lag: nat, n: nat): nat { lag * n }

  lemma CallsAdd(lag: nat, m: nat, n: nat)
    ensures Calls(lag, m) + Calls(lag, n) == Calls(lag, m + n)
  {
  }

  lemma CallsGrow(lag: nat, m: nat, n: nat)
    requires m <= n
    ensures Calls(lag, m) <= Calls(lag, n)
  {
    CallsAdd(lag, m, n - m);
  }

  /** The members there were at first and those born since. */
  function EverSince(s: Table, t: Table): nat
    requires s.births <= t.births
  {
    |s.procs| + (t.births - s.births)
  }

  ghost predicate Counted(s: Table, t: Table) {
    s.births <= t.births && |t.procs| <= EverSince(s, t)
  }

  /**
   `reap_descendants`. True is returned only in a state without any member, living or zombie; and
   it is returned whenever the kernel obliges, the members take no step of their own and the time
   limit leaves one pause for each of them. It returns at most one pause and two calls for every
   process there ever was after the time limit; so only births can hold it.
  */
  method ReapDescendants(k: Kernel, timeout: nat) returns (clean: bool)
    requires Inv(k.self, k.table)
    modifies k
    ensures Inv(k.self, k.table)
    ensures clean <==> k.table.procs == map[]
    ensures old(k.table).procs == map[] ==> clean
    ensures old(k.budget) == 0 && k.obliging && |old(k.table).procs| < timeout ==> clean
    ensures old(k.table).births <= k.table.births
    ensures k.now <= old(k.now) + timeout + 1 + Calls(k.lag, 2 * EverSince(old(k.table), k.table) + 1)
  {
    ghost var first := k.table;
    var deadline := k.now + timeout;
    ghost var quiet := k.budget == 0 && k.obliging;
    ghost var start, n0 := k.now, |k.table.procs|;
    ghost var killed := false;
    while true
      invariant Inv(k.self, k.table) && Counted(first, k.table)
      invariant first.procs == map[] ==> k.table.procs == map[]
      invariant start <= k.now <= deadline + 1 + Calls(k.lag, EverSince(first, k.table))
      invariant quiet ==> k.budget == 0 && k.obliging
      invariant quiet ==> |k.table.procs| + (k.now - start) <= n0 + (if killed then 1 else 0)
      invariant quiet && killed ==> exists p :: IsChild(k.self, k.table, p) && k.table.procs[p].zombie
      invariant k.now == start <==> !killed
      decreases if k.now < deadline then deadline - k.now else 0, !killed
    {
      ghost var before := k.table;
      var w, n := ReapEnded(k);
      ChildlessIsEmpty(k.self, k.table);
      TimeOfReaping(k.lag, first, before, k.table, n);
      if w.NoChild? {
        return true;
      }
      if k.now >= deadline {
        return false;
      }
      ghost var q := MemberOf(Children(k.self, k.table));
      ghost var listed := k.table;
      var sent := KillChildren(k);
      TimeOfKilling(k.lag, first, listed, k.table);
      assert IsChild(k.self, k.table, q);
      if !sent {
        return false;
      }
      assert quiet ==> IsChild(k.self, k.table, q) && k.table.procs[q].zombie;
      k.Pause();
      killed := true;
    }
  }

  lemma TimeOfReaping(lag: nat, first: Table, s: Table, t: Table, n: nat)
    requires Counted(first, s) && s.births <= t.births && n + |t.procs| <= EverSince(s, t)
    ensures Counted(first, t)
    ensures Calls(lag, EverSince(first, s)) + Calls(lag, n + 1) <= Calls(lag, 2 * EverSince(first, t) + 1)
  {
    CallsAdd(lag, EverSince(first, s), n + 1);
    CallsGrow(lag, EverSince(first, s) + n + 1, 2 * EverSince(first, t) + 1);
  }

  lemma TimeOfKilling(lag: nat, first: Table, s: Table, t: Table)
    requires Counted(first, s) && Counted(s, t)
    ensures Counted(first, t)
    ensures Calls(lag, |s.procs|) <= Calls(lag, EverSince(first, t))
    ensures Calls(lag, EverSince(first, t)) <= Calls(lag, 2 * EverSince(first, t) + 1)
  {
    CallsGrow(lag, |s.procs|, EverSince(first, t));
    CallsGrow(lag, EverSince(first, t), 2 * EverSince(first, t) + 1);
  }

  /**
   The inner loop: waits for ended children until there is none left to wait for. It succeeds at
   most once for every member there was or has been born meanwhile.
  */
  method ReapEnded(k: Kernel) returns (w: Wait, ghost n: nat)
    requires Inv(k.self, k.table)
    modifies k`table, k`now, k`budget
    ensures Inv(k.self, k.table) && !w.Reaped?
    ensures w.NoChild? <==> Children(k.self, k.table) == {}
    ensures Waited(k.self, old(k.table), k.table, n)
    ensures old(k.table).births <= k.table.births && n + |k.table.procs| <= EverSince(old(k.table), k.table)
    ensures old(k.now) <= k.now <= old(k.now) + Calls(k.lag, n + 1) && k.budget <= old(k.budget)
    ensures old(k.table).procs == map[] ==> k.table.procs == map[]
    ensures old(k.budget) == 0 ==> k.now == old(k.now) && |k.table.procs| <= |old(k.table).procs|
    ensures old(k.budget) == 0 && (exists p :: IsChild(k.self, old(k.table), p) && old(k.table).procs[p].zombie)
      ==> |k.table.procs| < |old(k.table).procs|
  {
    ghost var s, quiet := k.table, k.budget == 0;
    n := 0;
    ReapNone(k.self, s);
    w := Poll(k, s, 0);
    while w.Reaped?
      invariant Inv(k.self, k.table)
      invariant if w.Reaped? then Reaping(k.self, s, k.table, n + 1) else Waited(k.self, s, k.table, n)
      invariant s.births <= k.table.births && n + |k.table.procs| <= EverSince(s, k.table)
      invariant s.procs == map[] ==> k.table.procs == map[]
      invariant w.NoChild? <==> !w.Reaped? && Children(k.self, k.table) == {}
      invariant old(k.now) <= k.now <= old(k.now) + Calls(k.lag, n + 1) && k.budget <= old(k.budget)
      invariant quiet ==> k.now == old(k.now) && |k.table.procs| + n + (if w.Reaped? then 1 else 0) <= |s.procs|
      invariant quiet && (exists p :: IsChild(k.self, s, p) && s.procs[p].zombie) ==> n > 0 || w.Reaped?
      decreases k.budget, |k.table.procs|, w.Reaped?
    {
      n := n + 1;
      CallsAdd(k.lag, n, 1);
      w := Poll(k, s, n);
    }
  }

  /** One wait after `n` that reaped a child, with the members acting before it. */
  method Poll(k: Kernel, ghost s: Table, ghost n: nat) returns (w: Wait)
    requires Inv(k.self, k.table) && Reaping(k.self, s, k.table, n)
    modifies k`table, k`now, k`budget
    ensures Inv(k.self, k.table)
    ensures if w.Reaped? then Reaping(k.self, s, k.table, n + 1) else Waited(k.self, s, k.table, n)
    ensures s.births <= k.table.births && n + |k.table.procs| <= EverSince(s, k.table)
    ensures w.NoChild? <==> !w.Reaped? && Children(k.self, k.table) == {}
    ensures old(k.now) <= k.now <= old(k.now) + Calls(k.lag, 1) && k.budget <= old(k.budget)
    ensures old(k.table).procs == map[] ==> k.table.procs == map[]
    ensures old(k.budget) == k.budget ==>
      && k.now == old(k.now) && |k.table.procs| + (if w.Reaped? then 1 else 0) == |old(k.table).procs|
      && ((exists p :: IsChild(k.self, old(k.table), p) && old(k.table).procs[p].zombie) ==> w.Reaped?)
  {
    ghost var before := k.table;
    k.Interfere();
    ghost var u := k.table;
    w := k.WaitAny();
    if w.Reaped? {
      OneLess(u.procs, w.pid);
      assert ReapStep(k.self, before, k.table);
      ReapLast(k.self, s, before, k.table, n);
      WaitsAreBounded(k.self, s, k.table, n + 1);
    } else {
      WaitsAreBounded(k.self, s, before, n);
      ReachCounts(k.self, before, k.table);
    }
  }

  /** Reads the list of children once, then signals each of them; gives up if either is refused. */
  method KillChildren(k: Kernel) returns (sent: bool)
    requires Inv(k.self, k.table)
    modifies k
    ensures Inv(k.self, k.table) && Counted(old(k.table), k.table)
    ensures old(k.now) <= k.now <= old(k.now) + Calls(k.lag, |old(k.table).procs|) && k.budget <= old(k.budget)
    ensures forall p | IsChild(k.self, old(k.table), p) :: IsChild(k.self, k.table, p)
    ensures k.signals - old(k.signals) <= Children(k.self, old(k.table))
    ensures sent ==> k.signals == old(k.signals) + Children(k.self, old(k.table))
    ensures k.obliging ==> sent
    ensures old(k.budget) == 0 && k.obliging ==>
      (k.now == old(k.now) && k.table.procs.Keys == old(k.table).procs.Keys
       && forall p | IsChild(k.self, old(k.table), p) :: k.table.procs[p].zombie)
  {
    ghost var s, quiet := k.table, k.budget == 0 && k.obliging;
    ghost var listed := Children(k.self, s);
    ChildrenCount(k.self, s);
    var children := k.ReadChildren();
    if children.None? {
      return false;
    }
    var rest := children.value;
    ghost var m := 0;
    while rest != {}
      invariant rest <= listed && m + |rest| == |listed| && (quiet ==> k.budget == 0)
      invariant Signalling(k.self, s, k.table, rest, quiet)
      invariant k.signals == old(k.signals) + (listed - rest)
      invariant old(k.now) <= k.now <= old(k.now) + Calls(k.lag, m) && k.budget <= old(k.budget)
      invariant quiet ==> k.now == old(k.now)
    {
      ghost var some := MemberOf(rest);
      var p :| p in rest;
      var permitted := SignalNext(k, p, s, rest, quiet);
      CallsAdd(k.lag, m, 1);
      m := m + 1;
      if !permitted {
        CallsGrow(k.lag, m, |s.procs|);
        return false;
      }
      rest := rest - {p};
    }
    CallsGrow(k.lag, |listed|, |s.procs|);
    return true;
  }

  /** The children listed in `s` while those in `rest` are still to be signalled. */
  ghost predicate Signalling(self: int, s: Table, t: Table, rest: set<int>, quiet: bool) {
    && Inv(self, t) && Counted(s, t)
    && (forall p | IsChild(self, s, p) :: IsChild(self, t, p))
    && (quiet ==> t.procs.Keys == s.procs.Keys && forall p | IsChild(self, s, p) :: p in rest || t.procs[p].zombie)
  }

  /** One signal, with the members acting before it. */
  method SignalNext(k: Kernel, p: int, ghost s: Table, ghost rest: set<int>, ghost quiet: bool) returns (sent: bool)
    requires Signalling(k.self, s, k.table, rest, quiet) && p in rest && IsChild(k.self, s, p)
    requires quiet ==> k.budget == 0 && k.obliging
    modifies k
    ensures Signalling(k.self, s, k.table, if sent then rest - {p} else rest, quiet)
    ensures old(k.now) <= k.now <= old(k.now) + Calls(k.lag, 1) && k.budget <= old(k.budget)
    ensures k.signals == if sent then old(k.signals) + {p} else old(k.signals)
    ensures k.obliging ==> sent
    ensures quiet ==> k.now == old(k.now)
  {
    ghost var before := k.table;
    k.Interfere();
    ReachCounts(k.self, before, k.table);
    ghost var u := k.table;
    sent := k.Kill(p);
    SameSize(u, k.table);
  }

  lemma SameSize(s: Table, t: Table)
    requires t.procs.Keys == s.procs.Keys
    ensures |t.procs| == |s.procs|
  {
    assert |t.procs.Keys| == |t.procs| && |s.procs.Keys| == |s.procs|;
  }

  lemma ChildrenCount(self: int, t: Table)
    ensures |Children(self, t)| <= |t.procs|
  {
    SubsetSize(Children(self, t), t.procs.Keys);
    assert |t.procs.Keys| == |t.procs|;
  }

  lemma {:induction false} SubsetSize(a: set<int>, b: set<int>)
    requires a <= b
    ensures |a| <= |b|
    decreases |a|
  {
    if a != {} {
      var x := MemberOf(a);
      SubsetSize(a - {x}, b - {x});
    }
  }

  datatype Exit = Code | TimedOut | Interrupted | LaunchError | Unsupported

  /** How the launch went; a signal may arrive before there is a process. */
  datatype Launch = Started | Failed | Stopped

  /** The limits of the source, in ticks of a hundredth of a second. */
  const REAP_LIMIT := 1000
  const KILL_LIMIT := 200

  /**
   `supervise`: whatever happens to the command, a report of complete cleanup means that nothing
   it started is left, and stays so whatever happens next. `supported`: the list of children could
   be read and the kernel accepted the subreaper; `signalled`: the wait was interrupted. `seen` is
   the tree when that wait returned, at time `at` with `steps` more steps of the members to come.

   If the kernel obliges, the members take no more steps and there are fewer of them than a hundred
   for every second of the ten that cleaning up may take, then cleanup is complete; and it is over
   after those ten seconds, two more for the command itself, and the calls for the members there were.
  */
  method Supervise(k: Kernel, p: int, limit: nat, supported: bool, launch: Launch, signalled: bool)
    returns (exit: Exit, clean: bool, ghost seen: Table, ghost at: nat, ghost steps: nat)
    requires k.table.procs == map[] && p != k.self
    modifies k
    ensures Inv(k.self, k.table)
    ensures clean ==> forall later | Reaches(k.self, k.table, later) :: later.procs == map[]
    ensures clean <==> exit != Unsupported && k.table.procs == map[]
    ensures exit ==
      if !supported then Unsupported
      else if launch.Failed? then LaunchError
      else if launch.Stopped? || signalled then Interrupted
      else if IsChild(k.self, seen, p) then TimedOut else Code
    ensures exit.TimedOut? ==> !seen.procs[p].zombie && old(k.now) + limit <= at
    ensures exit.LaunchError? || launch.Stopped? ==> clean || !supported
    ensures supported && k.obliging && steps == 0 && |seen.procs| < 1000 ==> clean
    ensures seen.births <= k.table.births && old(k.now) <= at <= old(k.now) + limit + k.lag
    ensures k.now <= at + 200 + 1000 + 1 + Calls(k.lag, 2 * EverSince(seen, k.table) + 4)
  {
    seen, at, steps := k.table, k.now, k.budget;
    CallsGrow(k.lag, 0, 2 * EverSince(seen, k.table) + 4);
    if !supported {
      return Unsupported, false, seen, at, steps;
    }
    exit, seen, at, steps := RunCommand(k, p, limit, launch, signalled);
    ghost var left, lag := k.table, k.lag;
    clean := ReapDescendants(k, REAP_LIMIT);
    TimeInAll(lag, seen, left, k.table);
    if clean {
      forall later | Reaches(k.self, k.table, later) ensures later.procs == map[] {
        EmptyStaysEmpty(k.self, k.table, later);
      }
    }
  }

  /** The command itself, up to the cleanup of what it has left; by then it is over, or killed and given time to end. */
  method RunCommand(k: Kernel, p: int, limit: nat, launch: Launch, signalled: bool)
    returns (exit: Exit, ghost seen: Table, ghost at: nat, ghost steps: nat)
    requires k.table.procs == map[] && p != k.self
    modifies k
    ensures Inv(k.self, k.table) && Counted(seen, k.table)
    ensures exit ==
      if launch.Failed? then LaunchError
      else if launch.Stopped? || signalled then Interrupted
      else if IsChild(k.self, seen, p) then TimedOut else Code
    ensures exit.TimedOut? ==> !seen.procs[p].zombie && old(k.now) + limit <= at
    ensures !launch.Started? ==> k.table.procs == map[]
    ensures old(k.now) <= at <= old(k.now) + limit + k.lag
    ensures k.now <= at + 200 + Calls(k.lag, 3)
    ensures launch.Started? && k.obliging ==> p in k.table.procs ==> p in k.signals
    ensures launch.Started? && p in k.table.procs ==> at + 200 <= k.now
    ensures steps == 0 ==> k.budget == 0 && |k.table.procs| <= |seen.procs|
  {
    CallsGrow(k.lag, 0, 3);
    seen, at, steps := k.table, k.now, k.budget;
    exit := if launch.Stopped? then Interrupted else LaunchError;
    if launch.Started? {
      k.Launch(p);
      var ended := k.Await(p, limit, signalled);
      seen, at, steps := k.table, k.now, k.budget;
      exit := if signalled then Interrupted else if ended then Code else TimedOut;
      if !ended {
        EndCommand(k, p);
      }
    }
  }

  lemma TimeInAll(lag: nat, seen: Table, left: Table, t: Table)
    requires Counted(seen, left) && left.births <= t.births
    ensures seen.births <= t.births
    ensures Calls(lag, 3) + Calls(lag, 2 * EverSince(left, t) + 1) <= Calls(lag, 2 * EverSince(seen, t) + 4)
  {
    CallsAdd(lag, 3, 2 * EverSince(left, t) + 1);
    CallsGrow(lag, 2 * EverSince(left, t) + 4, 2 * EverSince(seen, t) + 4);
  }

  /** A command that is still running is killed, and waited for once more, for up to two seconds. */
  method EndCommand(k: Kernel, p: int)
    requires Inv(k.self, k.table) && IsChild(k.self, k.table, p)
    modifies k
    ensures Inv(k.self, k.table) && Counted(old(k.table), k.table)
    ensures old(k.now) <= k.now <= old(k.now) + 200 + Calls(k.lag, 3) && k.budget <= old(k.budget)
    ensures old(k.budget) == 0 ==> |k.table.procs| <= |old(k.table).procs|
    ensures p in k.table.procs ==> old(k.now) + 200 <= k.now
    ensures k.obliging && p in k.table.procs ==> p in k.signals
  {
    ghost var s := k.table;
    CallsOne(k.lag);
    var ended := k.Await(p, 0, false);
    WaitedCounts(k.self, s, k.table, if ended then 1 else 0);
    if !ended {
      ghost var t := k.table;
      k.Interfere();
      ReachCounts(k.self, t, k.table);
      ghost var u := k.table;
      var _ := k.Kill(p);
      SameSize(u, k.table);
      ghost var v := k.table;
      ended := k.Await(p, KILL_LIMIT, false);
      WaitedCounts(k.self, v, k.table, if ended then 1 else 0);
      if ended && old(k.budget) == 0 {
        OneLess(v.procs, p);
      }
    }
    if ended && old(k.budget) == 0 && p in s.procs && k.table.procs == s.procs - {p} {
      OneLess(s.procs, p);
    }
  }

  lemma CallsOne(lag: nat)
    ensures Calls(lag, 1) == lag && Calls(lag, 2) == lag + lag && Calls(lag, 3) == lag + lag + lag
  {
  }
}
