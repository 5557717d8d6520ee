/**
 Which processes of a snapshot belong to a launched one (scripts/bench/resource_lifecycle.py). A
 snapshot is taken while processes come and go, so parents may be missing or form cycles.
*/
module ProcessTree {
  import opened Sequences
  import opened SetSums
  import opened Wrappers

  type Pid = int

  datatype Entry = Entry(state: char, parent: Pid, started: int, pages: nat)

  type Snapshot = map<Pid, Entry>

  /** Zombies and dead processes hold no memory, but may still have children. */
  predicate Alive(e: Entry) { e.state != 'Z' && e.state != 'X' }

  /** From `root` down to the last process of `chain`, each a child of the one before. */
  ghost predicate IsChain(records: Snapshot, root: Pid, since: int, chain: seq<Pid>) {
    && chain != [] && chain[0] == root
    && (forall i | 0 <= i < |chain| :: chain[i] in records && records[chain[i]].started >= since)
    && (forall i | 0 < i < |chain| :: records[chain[i]].parent == chain[i - 1])
  }

  ghost predicate Reaches(records: Snapshot, root: Pid, since: int, chain: seq<Pid>, pid: Pid) {
    IsChain(records, root, since, chain) && chain[|chain| - 1] == pid
  }

  /** A descendant of the root, through processes no older than it. */
  ghost predicate Reached(records: Snapshot, root: Pid, since: int, pid: Pid) {
    exists chain :: Reaches(records, root, since, chain, pid)
  }

  ghost predicate Member(records: Snapshot, root: Pid, since: int, pid: Pid) {
    pid in records && Alive(records[pid]) && Reached(records, root, since, pid)
  }

  ghost function Members(records: Snapshot, root: Pid, since: int): set<Pid> {
    set pid | pid in records && Member(records, root, since, pid)
  }

  /** The set holds every child of its processes that is no older than the root. */
  ghost predicate Closed(records: Snapshot, since: int, s: set<Pid>) {
    forall pid | pid in records && records[pid].parent in s && records[pid].started >= since :: pid in s
  }

  /** The reached processes are the least closed set around the root. */
  lemma {:induction false} ReachedIsLeast(records: Snapshot, root: Pid, since: int, s: set<Pid>, chain: seq<Pid>)
    requires root in s && Closed(records, since, s) && IsChain(records, root, since, chain)
    ensures chain[|chain| - 1] in s
    decreases |chain|
  {
    var n := |chain| - 1;
    if n > 0 {
      ReachedIsLeast(records, root, since, s, chain[..n]);
      var last, before := chain[n], chain[n - 1];
      assert before in s;
      assert last in records && records[last].parent == before;
    }
  }

  lemma RootIsReached(records: Snapshot, root: Pid)
    requires root in records
    ensures Reached(records, root, records[root].started, root)
  {
    assert Reaches(records, root, records[root].started, [root], root);
  }

  lemma ChildIsReached(records: Snapshot, root: Pid, since: int, pid: Pid)
    requires pid in records && records[pid].started >= since
    requires Reached(records, root, since, records[pid].parent)
    ensures Reached(records, root, since, pid)
  {
    var chain :| Reaches(records, root, since, chain, records[pid].parent);
    assert Reaches(records, root, since, chain + [pid], pid);
  }

  // The walk.

  ghost predicate ChildrenOf(records: Snapshot, children: map<Pid, seq<Pid>>, done: set<Pid>) {
    forall parent, pid :: (parent in children && pid in children[parent]) <==>
      (pid in done && pid in records && records[pid].parent == parent)
  }

  method Children(records: Snapshot) returns (children: map<Pid, seq<Pid>>)
    ensures ChildrenOf(records, children, records.Keys)
  {
    children := map[];
    var rest := records.Keys;
    while rest != {}
      invariant rest <= records.Keys
      invariant ChildrenOf(records, children, records.Keys - rest)
    {
      ghost var some := MemberOf(rest);
      var pid :| pid in rest;
      var parent := records[pid].parent;
      var siblings := if parent in children then children[parent] else [];
      children := children[parent := siblings + [pid]];
      rest := rest - {pid};
    }
  }

  /** Expanded processes that are at least as young as the root. */
  ghost predicate Sound(records: Snapshot, root: Pid, since: int, pid: Pid) {
    pid in records && (records[pid].started >= since ==> Reached(records, root, since, pid))
  }

  /** Everything the walk still owes: each child of an expanded process is expanded or pending. */
  ghost predicate Tracked(records: Snapshot, since: int, seen: set<Pid>, pending: seq<Pid>) {
    forall pid | pid in records && records[pid].parent in seen && records[pid].parent in records ::
      records[records[pid].parent].started >= since ==> pid in seen || pid in pending
  }

  ghost predicate IsLive(records: Snapshot, since: int, seen: set<Pid>, live: seq<Pid>) {
    && NoRepeats(live)
    && forall pid :: pid in live <==> pid in seen && pid in records && records[pid].started >= since && Alive(records[pid])
  }

  /**
   The members of the tree: none if the root is gone or its number was reused, else each live
   process reached from the root, exactly once. The walk ends whatever the parents say.
  */
  method TreeMembers(records: Snapshot, root: Pid, since: int) returns (r: Option<seq<Pid>>)
    ensures r.None? <==> root !in records || records[root].started != since
    ensures r.Some? ==> NoRepeats(r.value)
    ensures r.Some? ==> forall pid :: pid in r.value <==> Member(records, root, since, pid)
    ensures r.Some? ==> forall pid :: pid in r.value <==>
      pid in records && records[pid].state !in {'Z', 'X'} && Reached(records, root, since, pid)
  {
    if root !in records || records[root].started != since {
      return None;
    }
    var children := Children(records);
    var pending, seen, live := [root], {}, [];
    RootIsReached(records, root);
    while pending != []
      invariant seen <= records.Keys
      invariant forall pid | pid in pending || pid in seen :: Sound(records, root, since, pid)
      invariant Tracked(records, since, seen, pending)
      invariant root in seen || root in pending
      invariant IsLive(records, since, seen, live)
      decreases records.Keys - seen, |pending|
    {
      var pid := pending[|pending| - 1];
      pending := pending[..|pending| - 1];
      if pid !in seen {
        seen := seen + {pid};
        if records[pid].started >= since {
          if Alive(records[pid]) {
            live := live + [pid];
          }
          var more := if pid in children then children[pid] else [];
          forall child | child in more ensures Sound(records, root, since, child) {
            if records[child].started >= since {
              ChildIsReached(records, root, since, child);
            }
          }
          pending := pending + more;
        }
      }
    }
    forall pid ensures pid in live <==> Member(records, root, since, pid) {
      if Member(records, root, since, pid) {
        var chain :| Reaches(records, root, since, chain, pid);
        var young := set p | p in seen && records[p].started >= since;
        ReachedIsLeast(records, root, since, young, chain);
      }
    }
    return Some(live);
  }

  ghost function PagesOf(records: Snapshot): Pid -> nat { pid => if pid in records then records[pid].pages else 0 }

  /** The memory of the tree counts every member once. */
  method TreeRss(records: Snapshot, root: Pid, since: int, pageSize: nat) returns (r: Option<nat>)
    ensures r == if root !in records || records[root].started != since then None
                 else Some(SumOver(Members(records, root, since), PagesOf(records)) * pageSize)
  {
    var members := TreeMembers(records, root, since);
    if members == None {
      return None;
    }
    var total: nat := 0;
    ghost var done: set<Pid> := {};
    SumEmpty(PagesOf(records));
    for i := 0 to |members.value|
      invariant done == set pid | pid in members.value[..i]
      invariant total == SumOver(done, PagesOf(records))
    {
      var pid := members.value[i];
      assert Member(records, root, since, pid);
      SumAdd(done, PagesOf(records), pid);
      total := total + records[pid].pages;
      done := done + {pid};
    }
    assert members.value[..|members.value|] == members.value;
    ghost var all := Members(records, root, since);
    forall pid ensures pid in done <==> pid in all {
      assert pid in all ==> Member(records, root, since, pid);
    }
    assert done == all;
    assert done == Members(records, root, since);
    return Some(total * pageSize);
  }
}
