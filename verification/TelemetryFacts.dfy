/** What the telemetry report says of the records and spans themselves (scripts/bench/codex_otel.py). */
module TelemetryFacts {
  // Chains of ancestors, sampling spans and prewarms by positions, without the walk or the report.

  import opened RequestTelemetry
  import opened Sequences
  import opened Wrappers

  /** The chain starts where the record points, goes from each span to its parent and ends at a root. */
  ghost predicate Climbs(spans: seq<Span>, start: Option<Key>, chain: seq<Span>) {
    && (forall s | s in chain :: s in spans)
    && start == (if chain == [] then None else Some(chain[0].span))
    && (forall i | 0 <= i < |chain| - 1 :: chain[i].parent == Some(chain[i + 1].span))
    && (chain != [] ==> chain[|chain| - 1].parent == None)
  }

  ghost predicate HasChain(spans: seq<Span>, start: Option<Key>) { exists chain :: Climbs(spans, start, chain) }

  /** Some span of the chain is a warmup. */
  ghost predicate IsPrewarm(spans: seq<Span>, start: Option<Key>) {
    exists chain: seq<Span>, s: Span :: Climbs(spans, start, chain) && s in chain && s.warmup == Some(true)
  }

  predicate FirstSampling(chain: seq<Span>, i: int) {
    && 0 <= i < |chain| && chain[i].name == RunSamplingRequest
    && forall j | 0 <= j < i :: chain[j].name != RunSamplingRequest
  }

  /** The first sampling span of the chain is this one. */
  ghost predicate SampledBy(spans: seq<Span>, start: Option<Key>, key: Key) {
    exists chain: seq<Span>, i: int :: Climbs(spans, start, chain) && FirstSampling(chain, i) && chain[i].span == key
  }

  /** The logical requests: the first sampling spans of the counted records that are no prewarms. */
  ghost predicate IsLogical(records: seq<Record>, spans: seq<Span>, key: Key) {
    exists r :: r in records && !r.models && !IsPrewarm(spans, r.span) && SampledBy(spans, r.span, key)
  }

  ghost predicate NoConflict(spans: seq<Span>) {
    forall i, j | 0 <= i < |spans| && 0 <= j < |spans| && spans[i].span == spans[j].span :: spans[i] == spans[j]
  }

  ghost predicate Explained(spans: seq<Span>, r: Record) {
    HasChain(spans, r.span) && (IsPrewarm(spans, r.span) || exists key :: SampledBy(spans, r.span, key))
  }

  /** Nothing failed, some record counts, no spans conflict, and every counted record is explained. */
  ghost predicate AllExplained(records: seq<Record>, spans: seq<Span>, errors: nat) {
    && errors == 0 && NoConflict(spans)
    && (exists r :: r in records && !r.models)
    && forall r | r in records && !r.models :: Explained(spans, r)
  }

  // Chains are paths.

  lemma {:induction false} ClimbsIsPath(spans: seq<Span>, start: Option<Key>, chain: seq<Span>)
    ensures Climbs(spans, start, chain) <==> IsPath(Elements(spans), start, chain)
    decreases |chain|
  {
    if chain != [] {
      var rest := chain[1..];
      ClimbsIsPath(spans, chain[0].parent, rest);
      assert chain == [chain[0]] + rest;
      assert Climbs(spans, start, chain) <==>
        chain[0] in spans && start == Some(chain[0].span) && Climbs(spans, chain[0].parent, rest)
      by {
        FirstStep(spans, start, chain);
      }
    }
  }

  lemma FirstStep(spans: seq<Span>, start: Option<Key>, chain: seq<Span>)
    requires chain != []
    ensures Climbs(spans, start, chain) <==>
      chain[0] in spans && start == Some(chain[0].span) && Climbs(spans, chain[0].parent, chain[1..])
  {
    var rest := chain[1..];
    assert forall s :: s in chain <==> s == chain[0] || s in rest;
    assert forall i | 0 <= i < |rest| :: rest[i] == chain[i + 1];
    if Climbs(spans, chain[0].parent, rest) {
      forall i | 0 <= i < |chain| - 1 ensures chain[i].parent == Some(chain[i + 1].span) || start != Some(chain[0].span) {
        if i > 0 {
          assert rest[i - 1].parent == Some(rest[i].span);
        }
      }
    }
  }

  lemma {:induction false} NearestIsFirst(chain: seq<Span>, key: Key)
    ensures Nearest(chain) == Some(key) <==> exists i :: FirstSampling(chain, i) && chain[i].span == key
    decreases |chain|
  {
    if chain != [] {
      var rest := chain[1..];
      NearestIsFirst(rest, key);
      assert forall i | 0 <= i < |rest| :: rest[i] == chain[i + 1];
      if chain[0].name == RunSamplingRequest {
        assert FirstSampling(chain, 0);
      } else {
        forall i | 0 <= i < |rest| ensures FirstSampling(rest, i) <==> FirstSampling(chain, i + 1) {
          assert forall j | 0 < j <= i :: chain[j] == rest[j - 1];
        }
        if i :| FirstSampling(chain, i) && chain[i].span == key {
          assert FirstSampling(rest, i - 1);
        }
        if i :| FirstSampling(rest, i) && rest[i].span == key {
          assert FirstSampling(chain, i + 1);
        }
      }
    }
  }

  lemma ConflictIsAmbiguous(spans: seq<Span>)
    ensures NoConflict(spans) <==> Unambiguous(Elements(spans))
  {
    if NoConflict(spans) {
      forall s, t | s in Elements(spans) && t in Elements(spans) && s.span == t.span ensures s == t {
        var i :| 0 <= i < |spans| && spans[i] == s;
        var j :| 0 <= j < |spans| && spans[j] == t;
      }
    }
    if Unambiguous(Elements(spans)) {
      forall i, j | 0 <= i < |spans| && 0 <= j < |spans| && spans[i].span == spans[j].span ensures spans[i] == spans[j] {
        assert spans[i] in Elements(spans) && spans[j] in Elements(spans);
      }
    }
  }

  lemma ChainIsRooted(spans: seq<Span>, start: Option<Key>)
    ensures HasChain(spans, start) <==> Rooted(Elements(spans), start)
  {
    if chain :| Climbs(spans, start, chain) {
      ClimbsIsPath(spans, start, chain);
    }
    if chain :| IsPath(Elements(spans), start, chain) {
      ClimbsIsPath(spans, start, chain);
    }
  }

  /** In a table without conflicts the chain is the one that the report looks at. */
  lemma OneChain(spans: seq<Span>, start: Option<Key>, chain: seq<Span>)
    requires NoConflict(spans) && Climbs(spans, start, chain)
    ensures Rooted(Elements(spans), start) && chain == PathOf(Elements(spans), start)
  {
    ConflictIsAmbiguous(spans);
    ClimbsIsPath(spans, start, chain);
    PathIsUnique(Elements(spans), start, chain, PathOf(Elements(spans), start));
  }

  lemma PathClimbs(spans: seq<Span>, start: Option<Key>)
    requires Rooted(Elements(spans), start)
    ensures Climbs(spans, start, PathOf(Elements(spans), start))
  {
    ClimbsIsPath(spans, start, PathOf(Elements(spans), start));
  }

  lemma PrewarmIsWarm(spans: seq<Span>, start: Option<Key>)
    requires NoConflict(spans)
    ensures IsPrewarm(spans, start) <==> Rooted(Elements(spans), start) && Warm(PathOf(Elements(spans), start))
  {
    if chain: seq<Span>, s: Span :| Climbs(spans, start, chain) && s in chain && s.warmup == Some(true) {
      OneChain(spans, start, chain);
    }
    if Rooted(Elements(spans), start) {
      PathClimbs(spans, start);
    }
  }

  lemma SampledIsNearest(spans: seq<Span>, start: Option<Key>, key: Key)
    requires NoConflict(spans)
    ensures SampledBy(spans, start, key) <==>
      Rooted(Elements(spans), start) && Nearest(PathOf(Elements(spans), start)) == Some(key)
  {
    if chain: seq<Span>, i: int :| Climbs(spans, start, chain) && FirstSampling(chain, i) && chain[i].span == key {
      OneChain(spans, start, chain);
      NearestIsFirst(chain, key);
    }
    if Rooted(Elements(spans), start) {
      PathClimbs(spans, start);
      NearestIsFirst(PathOf(Elements(spans), start), key);
    }
  }

  lemma ExplainedIsClassified(spans: seq<Span>, r: Record)
    requires NoConflict(spans)
    ensures Explained(spans, r) <==> Classified(Elements(spans), r)
  {
    ChainIsRooted(spans, r.span);
    PrewarmIsWarm(spans, r.span);
    if key :| SampledBy(spans, r.span, key) {
      SampledIsNearest(spans, r.span, key);
    }
    if Rooted(Elements(spans), r.span) && Nearest(PathOf(Elements(spans), r.span)).Some? {
      SampledIsNearest(spans, r.span, Nearest(PathOf(Elements(spans), r.span)).value);
    }
  }

  lemma ExplainedIsComplete(records: seq<Record>, spans: seq<Span>, errors: nat)
    ensures AllExplained(records, spans, errors) <==>
      Report(Elements(records), Counted(records), Elements(spans), errors).complete
  {
    CompleteIff(records, spans, errors);
    ConflictIsAmbiguous(spans);
    if NoConflict(spans) {
      forall r ensures Explained(spans, r) <==> Classified(Elements(spans), r) {
        ExplainedIsClassified(spans, r);
      }
    }
  }

  lemma LogicalIsAncestor(records: seq<Record>, spans: seq<Span>, key: Key)
    requires NoConflict(spans)
    ensures IsLogical(records, spans, key) <==> key in Ancestors(Counted(records), Elements(spans))
  {
    forall r: Record
      ensures IsPrewarm(spans, r.span) <==> Rooted(Elements(spans), r.span) && Warm(PathOf(Elements(spans), r.span))
      ensures SampledBy(spans, r.span, key) <==>
        Rooted(Elements(spans), r.span) && Nearest(PathOf(Elements(spans), r.span)) == Some(key)
    {
      PrewarmIsWarm(spans, r.span);
      SampledIsNearest(spans, r.span, key);
    }
    if r :| r in records && !r.models && !IsPrewarm(spans, r.span) && SampledBy(spans, r.span, key) {
      assert r in Sampled(Counted(records), Elements(spans));
    }
    if key in Ancestors(Counted(records), Elements(spans)) {
      var r :| r in Sampled(Counted(records), Elements(spans)) && Nearest(PathOf(Elements(spans), r.span)).value == key;
      assert r in records && !r.models;
    }
  }

  ghost predicate Unknown(m: Metrics) { m.logical.None? && m.prewarm.None? && !m.complete }

  /**
   Attempts are the distinct records that are not of the model list; logical requests and prewarms
   are known exactly if everything is explained, and then they are the distinct first sampling
   spans and the records under a warmup.
  */
  lemma Reported(records: seq<Record>, spans: seq<Span>, errors: nat) returns (logical: set<Key>)
    ensures var m := Report(Elements(records), Counted(records), Elements(spans), errors);
      && m.attempts == (if errors > 0 || records == [] then None else Some(|set r | r in records && !r.models|))
      && (m.complete <==> AllExplained(records, spans, errors))
      && (if m.complete then
            && (forall key :: key in logical <==> IsLogical(records, spans, key))
            && m.logical == Some(|logical|)
            && m.prewarm == Some(|set r | r in records && !r.models && IsPrewarm(spans, r.span)|)
          else Unknown(m))
  {
    ExplainedIsComplete(records, spans, errors);
    assert records != [] ==> records[0] in Elements(records);
    assert Counted(records) == set r | r in records && !r.models;
    logical := {};
    if AllExplained(records, spans, errors) {
      logical := Ancestors(Counted(records), Elements(spans));
      forall key ensures key in logical <==> IsLogical(records, spans, key) {
        LogicalIsAncestor(records, spans, key);
      }
      PrewarmsAre(records, spans);
    }
  }

  lemma PrewarmsAre(records: seq<Record>, spans: seq<Span>)
    requires NoConflict(spans)
    ensures Prewarmed(Counted(records), Elements(spans)) == set r | r in records && !r.models && IsPrewarm(spans, r.span)
  {
    forall r: Record
      ensures IsPrewarm(spans, r.span) <==> Rooted(Elements(spans), r.span) && Warm(PathOf(Elements(spans), r.span))
    {
      PrewarmIsWarm(spans, r.span);
    }
  }
}
