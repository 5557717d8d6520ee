/** Request counts from Codex telemetry (scripts/bench/codex_otel.py, `request_metrics`). */
module RequestTelemetry {
  // The records of provider requests are joined to their sampling ancestors in a table of spans that
  // may hold repeats, conflicts, dangling parents and cycles. Span identities are opaque keys.

  import opened Sequences
  import opened Wrappers

  type Key = int

  /** `models` marks a record of the model list; `rest` is everything else the record says. */
  datatype Record = Record(models: bool, span: Option<Key>, rest: string)

  /** A span's name; all but two are kept as `OtherName`. */
  datatype Name = RunSamplingRequest | StreamResponsesWebsocket | OtherName

  datatype Span = Span(span: Key, parent: Option<Key>, name: Name, warmup: Option<bool>) {
    predicate Sampling() { name == RunSamplingRequest }
  }

  datatype Metrics = Metrics(logical: Option<nat>, attempts: Option<nat>, prewarm: Option<nat>, complete: bool)

  // Ancestry.

  /** Following parents from `start` along `trail` arrives at `key`. */
  ghost predicate Leads(spans: set<Span>, start: Option<Key>, trail: seq<Span>, key: Option<Key>)
    decreases |trail|
  {
    if trail == [] then key == start
    else trail[0] in spans && start == Some(trail[0].span) && Leads(spans, trail[0].parent, trail[1..], key)
  }

  /** A chain of ancestors that ends at an explicit root. */
  ghost predicate IsPath(spans: set<Span>, start: Option<Key>, path: seq<Span>) {
    Leads(spans, start, path, None)
  }

  ghost predicate Rooted(spans: set<Span>, start: Option<Key>) {
    exists path :: IsPath(spans, start, path)
  }

  ghost function PathOf(spans: set<Span>, start: Option<Key>): (path: seq<Span>)
    requires Rooted(spans, start)
    ensures IsPath(spans, start, path)
  {
    var path :| IsPath(spans, start, path);
    path
  }

  /** No two spans claim the same identity and differ in anything, be it only the name. */
  ghost predicate Unambiguous(spans: set<Span>) {
    forall s, t | s in spans && t in spans && s.span == t.span :: s == t
  }

  function Warm(path: seq<Span>): bool { exists s | s in path :: s.warmup == Some(true) }

  /** The sampling span closest to the start. */
  function Nearest(path: seq<Span>): Option<Key> {
    if path == [] then None
    else if path[0].Sampling() then Some(path[0].span)
    else Nearest(path[1..])
  }

  lemma {:induction false} LeadsOn(spans: set<Span>, start: Option<Key>, trail: seq<Span>, s: Span)
    requires Leads(spans, start, trail, Some(s.span)) && s in spans
    ensures Leads(spans, start, trail + [s], s.parent)
    decreases |trail|
  {
    if trail == [] {
      assert [s][1..] == [];
    } else {
      LeadsOn(spans, trail[0].parent, trail[1..], s);
      assert (trail + [s])[1..] == trail[1..] + [s];
    }
  }

  lemma {:induction false} NearestOn(trail: seq<Span>, s: Span)
    ensures Nearest(trail + [s]) ==
      if Nearest(trail).Some? then Nearest(trail) else if s.Sampling() then Some(s.span) else None
  {
    if trail == [] {
      assert [s][1..] == [];
    } else {
      NearestOn(trail[1..], s);
      assert (trail + [s])[1..] == trail[1..] + [s];
    }
  }

  /** Every step of a trail is itself arrived at by the steps before it. */
  lemma {:induction false} LeadsTo(spans: set<Span>, start: Option<Key>, trail: seq<Span>, key: Option<Key>, i: nat)
    requires Leads(spans, start, trail, key) && i < |trail|
    ensures Leads(spans, start, trail[..i], Some(trail[i].span))
    decreases |trail|
  {
    if i > 0 {
      LeadsTo(spans, trail[0].parent, trail[1..], key, i - 1);
      assert trail[..i][1..] == trail[1..][..i - 1];
    }
  }

  /** A path from the start has every trail from the start as its beginning. */
  lemma {:induction false} PathExtends(spans: set<Span>, start: Option<Key>, trail: seq<Span>, key: Option<Key>, path: seq<Span>)
    requires Unambiguous(spans) && Leads(spans, start, trail, key) && IsPath(spans, start, path)
    ensures |trail| <= |path| && trail == path[..|trail|] && IsPath(spans, key, path[|trail|..])
    decreases |trail|
  {
    if trail == [] {
      assert path[0..] == path;
    } else {
      PathExtends(spans, trail[0].parent, trail[1..], key, path[1..]);
      assert path[..|trail|][1..] == path[1..][..|trail| - 1];
      assert path[1..][|trail| - 1..] == path[|trail|..];
    }
  }

  lemma PathIsUnique(spans: set<Span>, start: Option<Key>, path: seq<Span>, other: seq<Span>)
    requires Unambiguous(spans) && IsPath(spans, start, path) && IsPath(spans, start, other)
    ensures path == other
  {
    PathExtends(spans, start, path, None, other);
    PathExtends(spans, start, other, None, path);
  }

  /** A trail that comes back to one of its own spans never reaches a root. */
  lemma CycleIsNotRooted(spans: set<Span>, start: Option<Key>, trail: seq<Span>, i: nat)
    requires Unambiguous(spans) && i < |trail| && Leads(spans, start, trail, Some(trail[i].span))
    ensures !Rooted(spans, start)
  {
    var key := Some(trail[i].span);
    forall path | IsPath(spans, start, path) ensures false {
      LeadsTo(spans, start, trail, key, i);
      PathExtends(spans, start, trail[..i], key, path);
      PathExtends(spans, start, trail, key, path);
      PathIsUnique(spans, key, path[i..], path[|trail|..]);
    }
  }

  lemma DanglingIsNotRooted(spans: set<Span>, start: Option<Key>, trail: seq<Span>, key: Key)
    requires Unambiguous(spans) && Leads(spans, start, trail, Some(key))
    requires forall s | s in spans :: s.span != key
    ensures !Rooted(spans, start)
  {
    forall path | IsPath(spans, start, path) ensures false {
      PathExtends(spans, start, trail, Some(key), path);
    }
  }

  /** The index holds exactly the spans of the table. */
  ghost predicate Indexes(index: map<Key, Span>, spans: set<Span>) {
    && (forall k | k in index :: index[k] in spans && index[k].span == k)
    && (forall s | s in spans :: s.span in index && index[s.span] == s)
  }

  /**
   Walks up the ancestors. The walk ends on any table, and it says "rooted" exactly when there is
   a chain of parents to an explicit root; then it finds the nearest sampling span of that chain.
  */
  method Walk(index: map<Key, Span>, ghost spans: set<Span>, start: Option<Key>)
    returns (rooted: bool, sampling: Option<Key>, warm: bool)
    requires Indexes(index, spans)
    ensures rooted <==> Rooted(spans, start)
    ensures rooted ==> sampling == Nearest(PathOf(spans, start)) && warm == Warm(PathOf(spans, start))
  {
    var key, visited := start, {};
    sampling, warm := None, false;
    ghost var trail: seq<Span> := [];
    while key.Some? && key.value in index && key.value !in visited
      invariant visited == set s | s in trail :: s.span
      invariant visited <= index.Keys
      invariant Leads(spans, start, trail, key)
      invariant sampling == Nearest(trail) && warm == Warm(trail)
      decreases index.Keys - visited
    {
      var span := index[key.value];
      assert span.span == key.value;
      visited := visited + {key.value};
      warm := warm || span.warmup == Some(true);
      if sampling == None && span.Sampling() {
        sampling := Some(key.value);
      }
      LeadsOn(spans, start, trail, span);
      NearestOn(trail, span);
      trail := trail + [span];
      key := span.parent;
    }
    rooted := key == None;
    if rooted {
      assert IsPath(spans, start, trail);
      PathIsUnique(spans, start, trail, PathOf(spans, start));
    } else if key.value in visited {
      ghost var i :| 0 <= i < |trail| && trail[i].span == key.value;
      CycleIsNotRooted(spans, start, trail, i);
    } else {
      DanglingIsNotRooted(spans, start, trail, key.value);
    }
  }

  // The report.

  function Counted(records: seq<Record>): set<Record> { set r | r in records && !r.models }

  /** The record belongs to a chain of ancestors that says what kind of request it was. */
  ghost predicate Classified(spans: set<Span>, r: Record) {
    Rooted(spans, r.span) && (Warm(PathOf(spans, r.span)) || Nearest(PathOf(spans, r.span)).Some?)
  }

  ghost function Prewarmed(counted: set<Record>, spans: set<Span>): set<Record> {
    set r | r in counted && Rooted(spans, r.span) && Warm(PathOf(spans, r.span))
  }

  /** The records that are not prewarms but have a sampling ancestor. */
  ghost function Sampled(counted: set<Record>, spans: set<Span>): set<Record> {
    set r | r in counted && Classified(spans, r) && !Warm(PathOf(spans, r.span))
  }

  ghost function Ancestors(counted: set<Record>, spans: set<Span>): set<Key> {
    set r | r in Sampled(counted, spans) :: Nearest(PathOf(spans, r.span)).value
  }

  ghost predicate Complete(counted: set<Record>, spans: set<Span>) {
    Unambiguous(spans) && forall r | r in counted :: Classified(spans, r)
  }

  /** What telemetry reports, by sets of records and spans alone. */
  ghost function Report(records: set<Record>, counted: set<Record>, spans: set<Span>, errors: nat): Metrics {
    if errors > 0 || records == {} then Metrics(None, None, None, false)
    else if counted == {} || !Complete(counted, spans) then Metrics(None, Some(|counted|), None, false)
    else Metrics(Some(|Ancestors(counted, spans)|), Some(|counted|), Some(|Prewarmed(counted, spans)|), true)
  }

  method Index(spans: seq<Span>) returns (r: Option<map<Key, Span>>)
    ensures r.Some? <==> Unambiguous(Elements(spans))
    ensures r.Some? ==> Indexes(r.value, Elements(spans))
  {
    var index: map<Key, Span> := map[];
    for i := 0 to |spans|
      invariant Indexes(index, Elements(spans[..i]))
    {
      var span := spans[i];
      if span.span in index && index[span.span] != span {
        assert index[span.span] in Elements(spans) && span in Elements(spans);
        return None;
      }
      index := index[span.span := span];
      assert Elements(spans[..i + 1]) == Elements(spans[..i]) + {span};
    }
    assert spans[..|spans|] == spans;
    return Some(index);
  }

  /** The classified records so far, by their sampling ancestors and their prewarms. */
  ghost predicate Tallied(done: set<Record>, spans: set<Span>, logical: set<Key>, prewarm: nat) {
    && (forall r | r in done :: Classified(spans, r))
    && logical == Ancestors(done, spans) && prewarm == |Prewarmed(done, spans)|
  }

  lemma NothingTallied(spans: set<Span>)
    ensures Tallied({}, spans, {}, 0)
  {
    assert Prewarmed({}, spans) == {};
  }

  lemma AllTallied(records: set<Record>, counted: set<Record>, spans: set<Span>, logical: set<Key>, prewarm: nat)
    requires Tallied(counted, spans, logical, prewarm) && Unambiguous(spans) && records != {} && counted != {}
    ensures Report(records, counted, spans, 0) == Metrics(Some(|logical|), Some(|counted|), Some(prewarm), true)
  {
  }

  method RequestMetrics(records: seq<Record>, spans: seq<Span>, errors: nat) returns (m: Metrics)
    ensures m == Report(Elements(records), Counted(records), Elements(spans), errors)
  {
    m := Metrics(None, None, None, false);
    if errors > 0 || records == [] {
      return;
    }
    assert records[0] in Elements(records);
    var unique := Counted(records);
    m := m.(attempts := Some(|unique|));
    if unique == {} {
      return;
    }
    var index := Index(spans);
    if index == None {
      return;
    }
    ghost var table := Elements(spans);
    var rest, logical, prewarm: nat := unique, {}, 0;
    ghost var done: set<Record> := {};
    NothingTallied(table);
    while rest != {}
      invariant rest !! done && rest + done == unique
      invariant Tallied(done, table, logical, prewarm)
    {
      ghost var some := MemberOf(rest);
      var record :| record in rest;
      var rooted, sampling, warm := Walk(index.value, table, record.span);
      if !rooted || (!warm && sampling == None) {
        OneUnclassified(unique, table, record);
        return;
      }
      TallyOn(done, table, logical, prewarm, record);
      if warm {
        prewarm := prewarm + 1;
      } else {
        logical := logical + {sampling.value};
      }
      rest := rest - {record};
      done := done + {record};
    }
    assert done == unique;
    AllTallied(Elements(records), unique, table, logical, prewarm);
    m := Metrics(Some(|logical|), Some(|unique|), Some(prewarm), true);
  }

  lemma OneUnclassified(counted: set<Record>, spans: set<Span>, r: Record)
    requires r in counted && !Classified(spans, r)
    ensures !Complete(counted, spans)
  {
  }

  lemma OneMore(done: set<Record>, spans: set<Span>, r: Record)
    requires r !in done && Classified(spans, r)
    ensures Warm(PathOf(spans, r.span)) ==>
      && Ancestors(done + {r}, spans) == Ancestors(done, spans)
      && |Prewarmed(done + {r}, spans)| == |Prewarmed(done, spans)| + 1
    ensures !Warm(PathOf(spans, r.span)) ==>
      && Ancestors(done + {r}, spans) == Ancestors(done, spans) + {Nearest(PathOf(spans, r.span)).value}
      && Prewarmed(done + {r}, spans) == Prewarmed(done, spans)
  {
    if Warm(PathOf(spans, r.span)) {
      assert Prewarmed(done + {r}, spans) == Prewarmed(done, spans) + {r};
      assert Sampled(done + {r}, spans) == Sampled(done, spans);
    } else {
      assert Sampled(done + {r}, spans) == Sampled(done, spans) + {r};
      assert Prewarmed(done + {r}, spans) == Prewarmed(done, spans);
    }
  }

  lemma TallyOn(done: set<Record>, spans: set<Span>, logical: set<Key>, prewarm: nat, r: Record)
    requires Tallied(done, spans, logical, prewarm) && r !in done && Classified(spans, r)
    ensures if Warm(PathOf(spans, r.span)) then Tallied(done + {r}, spans, logical, prewarm + 1)
            else Tallied(done + {r}, spans, logical + {Nearest(PathOf(spans, r.span)).value}, prewarm)
  {
    OneMore(done, spans, r);
  }

  /**
   Complete telemetry accounts for every attempt exactly once, as a prewarm or under a sampling
   request, and there are never more logical requests than sampled attempts.
  */
  lemma CompleteAccountsForAll(records: seq<Record>, spans: seq<Span>, errors: nat)
    requires Report(Elements(records), Counted(records), Elements(spans), errors).complete
    ensures var m, sampled := Report(Elements(records), Counted(records), Elements(spans), errors),
        Sampled(Counted(records), Elements(spans));
      && m.prewarm.value + |sampled| == m.attempts.value
      && m.logical.value <= |sampled|
      && (sampled != {} ==> m.logical.value > 0)
  {
    var counted, table := Counted(records), Elements(spans);
    assert counted == Prewarmed(counted, table) + Sampled(counted, table);
    assert Prewarmed(counted, table) !! Sampled(counted, table);
    ImageIsSmaller(Sampled(counted, table), Ancestors(counted, table), r => NearestKey(table, r));
    if Sampled(counted, table) != {} {
      var r := MemberOf(Sampled(counted, table));
      assert NearestKey(table, r) in Ancestors(counted, table);
    }
  }

  ghost function NearestKey(spans: set<Span>, r: Record): Key {
    if Rooted(spans, r.span) && Nearest(PathOf(spans, r.span)).Some? then Nearest(PathOf(spans, r.span)).value else 0
  }

  lemma {:induction false} ImageIsSmaller<T, U>(s: set<T>, image: set<U>, f: T -> U)
    requires image == set x | x in s :: f(x)
    ensures |image| <= |s|
    decreases |s|
  {
    if s != {} {
      var x := MemberOf(s);
      var rest := set y | y in s - {x} :: f(y);
      ImageIsSmaller(s - {x}, rest, f);
      assert image == rest + {f(x)};
    } else {
      assert image == {};
    }
  }

  /** Telemetry is complete exactly when the evidence is: nothing failed, ambiguous or unexplained. */
  lemma CompleteIff(records: seq<Record>, spans: seq<Span>, errors: nat)
    ensures Report(Elements(records), Counted(records), Elements(spans), errors).complete <==>
      && errors == 0
      && Unambiguous(Elements(spans))
      && (exists r :: r in records && !r.models)
      && (forall r | r in records && !r.models :: Classified(Elements(spans), r))
  {
    if exists r :: r in records && !r.models {
      var r :| r in records && !r.models;
      assert r in Counted(records) && r in Elements(records);
    } else {
      assert Counted(records) == {};
    }
  }

  /** Neither the order nor the repetition of records and spans matters. */
  lemma OrderDoesNotMatter(records: seq<Record>, spans: seq<Span>, records': seq<Record>, spans': seq<Span>, errors: nat)
    requires forall r :: r in records <==> r in records'
    requires forall s :: s in spans <==> s in spans'
    ensures Report(Elements(records), Counted(records), Elements(spans), errors) ==
            Report(Elements(records'), Counted(records'), Elements(spans'), errors)
  {
    assert Elements(records) == Elements(records') && Counted(records) == Counted(records');
    assert Elements(spans) == Elements(spans');
  }
}
