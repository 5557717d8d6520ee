/**
 Rows against the pinned manifest of a campaign (scripts/bench/campaign.py, `manifest_errors`).

 A manifest is first checked for its own members; a usable one gives the plan of the campaign and
 pins fields, harness identities, grading isolation and, for a private suite, labels. What an empty
 list of errors stands for is stated without reference to the order of the checks.
*/
module CampaignManifest {
  import opened CampaignIntegrity
  import opened MissingRows
  import opened Sequences
  import opened Wrappers

  /** A manifest's members; an absent one, or one of the wrong shape, is none. */
  datatype Manifest = Manifest(tasks: Option<seq<Val>>, repetitions: Option<seq<Val>>, harnesses: Option<seq<Val>>,
                               identities: Option<map<string, Option<Row>>>, isolations: Option<Row>,
                               fields: Row, labels: Option<map<string, Row>>)

  datatype ManifestError = NoManifest | BadMembers | NoIdentities | BadIsolations | Integrity(error: Error)
                         | Differs(field: string) | DiffersIsolation | NoHarnessIdentity | DiffersIdentity(identity: string)
                         | DiffersLabel(what: string)

  const PINNED := ["schema_version", "campaign", "variant", "fixture_hash", "model", "effort_policy", "service_tier"]

  const OPTIONAL := ["private_suite_digest", "price_table_hash"]

  const LABELS := ["size_class", "split", "language", "repository_id", "reference_commit", "visible_tests",
                   "requires_existing_test_changes"]

  predicate Names(v: Option<seq<Val>>) {
    v.Some? && v.value != [] && (forall i | 0 <= i < |v.value| :: v.value[i].Text?) && NoRepeats(v.value)
  }

  predicate Numbers(v: Option<seq<Val>>) {
    v.Some? && v.value != [] && (forall i | 0 <= i < |v.value| :: v.value[i].Int?) && NoRepeats(v.value)
  }

  function Texts(v: Option<seq<Val>>): seq<string>
    requires Names(v)
  {
    seq(|v.value|, i requires 0 <= i < |v.value| => v.value[i].s)
  }

  function Ints(v: Option<seq<Val>>): seq<int>
    requires Numbers(v)
  {
    seq(|v.value|, i requires 0 <= i < |v.value| => v.value[i].i)
  }

  predicate Members(m: Manifest) { Names(m.tasks) && Numbers(m.repetitions) && Names(m.harnesses) }

  /** The manifest can pin a campaign at all. */
  predicate Usable(m: Manifest) {
    && Members(m) && m.identities.Some? && m.isolations.Some?
    && forall i | 0 <= i < |Texts(m.harnesses)| ::
         Texts(m.harnesses)[i] in m.isolations.value && Isolation(m.isolations.value[Texts(m.harnesses)[i]])
  }

  function Planned(m: Manifest): set<Key>
    requires Members(m)
  {
    ExpectedKeys([], Texts(m.tasks), Ints(m.repetitions), Some(Texts(m.harnesses)))
  }

  predicate PinnedField(m: Manifest, row: Row, field: string) {
    Get(m.fields, field) != Null && Same(Get(row, field), Get(m.fields, field))
  }

  predicate OptionalField(m: Manifest, row: Row, field: string) {
    field in m.fields ==> Same(Get(row, field), m.fields[field])
  }

  predicate IdentityField(row: Row, identity: Row, field: string)
    requires field in identity
  {
    field in row && Same(row[field], identity[field])
  }

  function LabelsOf(m: Manifest, row: Row): Row
    requires m.labels.Some?
  {
    var task := Get(row, "task");
    if task.Text? && task.s in m.labels.value then m.labels.value[task.s] else map[]
  }

  predicate LabelField(m: Manifest, row: Row, field: string)
    requires m.labels.Some?
  {
    field in LabelsOf(m, row) && Same(Get(row, field), LabelsOf(m, row)[field])
  }

  /** The identity the manifest pins for the row's harness. */
  function IdentityOf(m: Manifest, row: Row): Option<Row>
    requires m.identities.Some?
  {
    var h := Get(row, "harness");
    if h.Text? && h.s in m.identities.value then m.identities.value[h.s] else None
  }

  /** The row says everything the manifest says. */
  ghost predicate Matches(m: Manifest, row: Row)
    requires Usable(m)
  {
    && (forall i | 0 <= i < |PINNED| :: PinnedField(m, row, PINNED[i]))
    && (Get(row, "harness").Text? ==>
          Same(Get(row, "grading_isolation"), Get(m.isolations.value, Get(row, "harness").s)))
    && IdentityOf(m, row).Some? && IdentityOf(m, row).value != map[]
    && (forall f | f in IdentityOf(m, row).value :: IdentityField(row, IdentityOf(m, row).value, f))
    && (forall i | 0 <= i < |OPTIONAL| :: OptionalField(m, row, OPTIONAL[i]))
    && (m.labels.Some? ==> forall i | 0 <= i < |LABELS| :: LabelField(m, row, LABELS[i]))
  }

  /** Complete for the manifest's own plan, and every row as pinned. */
  ghost predicate Accepted(m: Manifest, rows: seq<Row>)
    requires Usable(m)
  {
    Complete(rows, Planned(m)) && forall i | 0 <= i < |rows| :: Matches(m, rows[i])
  }

  /** What each error about a row stands for. */
  ghost predicate Differing(e: ManifestError, m: Manifest, row: Row)
    requires Usable(m)
  {
    match e
    case Differs(f) =>
      || (f in PINNED && !PinnedField(m, row, f))
      || (Identified(m, row) && f in OPTIONAL && !OptionalField(m, row, f))
    case DiffersIsolation =>
      Get(row, "harness").Text? && !Same(Get(row, "grading_isolation"), Get(m.isolations.value, Get(row, "harness").s))
    case NoHarnessIdentity => !Identified(m, row)
    case DiffersIdentity(f) =>
      Identified(m, row) && f in IdentityOf(m, row).value && !IdentityField(row, IdentityOf(m, row).value, f)
    case DiffersLabel(f) => Identified(m, row) && m.labels.Some? && f in LABELS && !LabelField(m, row, f)
    case _ => false
  }

  predicate Identified(m: Manifest, row: Row)
    requires m.identities.Some?
  {
    IdentityOf(m, row).Some? && IdentityOf(m, row).value != map[]
  }

  method PinnedErrors(m: Manifest, row: Row) returns (errors: seq<ManifestError>)
    ensures forall e :: e in errors <==> e.Differs? && e.field in PINNED && !PinnedField(m, row, e.field)
  {
    errors := [];
    for i := 0 to |PINNED|
      invariant forall e :: e in errors <==> e.Differs? && e.field in PINNED[..i] && !PinnedField(m, row, e.field)
    {
      if !PinnedField(m, row, PINNED[i]) {
        errors := errors + [Differs(PINNED[i])];
      }
    }
  }

  method IdentityErrors(row: Row, identity: Row) returns (errors: seq<ManifestError>)
    ensures forall e :: e in errors <==>
      e.DiffersIdentity? && e.identity in identity && !IdentityField(row, identity, e.identity)
  {
    errors := [];
    var rest := identity.Keys;
    while rest != {}
      invariant rest <= identity.Keys
      invariant forall e :: e in errors <==>
        e.DiffersIdentity? && e.identity in identity && e.identity !in rest && !IdentityField(row, identity, e.identity)
    {
      ghost var some := MemberOf(rest);
      var f :| f in rest;
      if !IdentityField(row, identity, f) {
        errors := errors + [DiffersIdentity(f)];
      }
      rest := rest - {f};
    }
  }

  method OptionalErrors(m: Manifest, row: Row) returns (errors: seq<ManifestError>)
    ensures forall e :: e in errors <==> e.Differs? && e.field in OPTIONAL && !OptionalField(m, row, e.field)
  {
    errors := [];
    for i := 0 to |OPTIONAL|
      invariant forall e :: e in errors <==> e.Differs? && e.field in OPTIONAL[..i] && !OptionalField(m, row, e.field)
    {
      if !OptionalField(m, row, OPTIONAL[i]) {
        errors := errors + [Differs(OPTIONAL[i])];
      }
    }
  }

  method LabelErrors(m: Manifest, row: Row) returns (errors: seq<ManifestError>)
    requires m.labels.Some?
    ensures forall e :: e in errors <==> e.DiffersLabel? && e.what in LABELS && !LabelField(m, row, e.what)
  {
    errors := [];
    for i := 0 to |LABELS|
      invariant forall e :: e in errors <==> e.DiffersLabel? && e.what in LABELS[..i] && !LabelField(m, row, e.what)
    {
      if !LabelField(m, row, LABELS[i]) {
        errors := errors + [DiffersLabel(LABELS[i])];
      }
    }
  }

  /** Exactly what differs is reported; without an identity for its harness a row is looked at no further. */
  method RowErrors(m: Manifest, row: Row) returns (errors: seq<ManifestError>)
    requires Usable(m)
    ensures forall e :: e in errors <==> Differing(e, m, row)
    ensures errors == [] <==> Matches(m, row)
  {
    errors := PinnedErrors(m, row);
    var h := Get(row, "harness");
    if h.Text? && !Same(Get(row, "grading_isolation"), Get(m.isolations.value, h.s)) {
      errors := errors + [DiffersIsolation];
    }
    var identity := IdentityOf(m, row);
    if identity.None? || identity.value == map[] {
      errors := errors + [NoHarnessIdentity];
    } else {
      var differing := IdentityErrors(row, identity.value);
      var optional := OptionalErrors(m, row);
      var labels := [];
      if m.labels.Some? {
        labels := LabelErrors(m, row);
      }
      errors := errors + differing + optional + labels;
    }
    NothingDiffers(m, row);
    if errors != [] {
      assert errors[0] in errors;
    }
  }

  lemma NothingDiffers(m: Manifest, row: Row)
    requires Usable(m)
    ensures Matches(m, row) <==> forall e :: !Differing(e, m, row)
  {
    if !Matches(m, row) {
      var e := SomethingDiffers(m, row);
    }
  }

  lemma SomethingDiffers(m: Manifest, row: Row) returns (e: ManifestError)
    requires Usable(m) && !Matches(m, row)
    ensures Differing(e, m, row)
  {
    if i :| 0 <= i < |PINNED| && !PinnedField(m, row, PINNED[i]) {
      return Differs(PINNED[i]);
    }
    if !Identified(m, row) {
      return NoHarnessIdentity;
    }
    if f :| f in IdentityOf(m, row).value && !IdentityField(row, IdentityOf(m, row).value, f) {
      return DiffersIdentity(f);
    }
    if i :| 0 <= i < |OPTIONAL| && !OptionalField(m, row, OPTIONAL[i]) {
      return Differs(OPTIONAL[i]);
    }
    if m.labels.Some? {
      if i :| 0 <= i < |LABELS| && !LabelField(m, row, LABELS[i]) {
        return DiffersLabel(LABELS[i]);
      }
    }
    return DiffersIsolation;
  }

  function Wrapped(errors: seq<Error>): (r: seq<ManifestError>)
    ensures |r| == |errors| && forall i | 0 <= i < |errors| :: r[i] == Integrity(errors[i])
  {
    seq(|errors|, i requires 0 <= i < |errors| => Integrity(errors[i]))
  }

  lemma WrappedAre(errors: seq<Error>, e: ManifestError)
    ensures e in Wrapped(errors) <==> e.Integrity? && e.error in errors
  {
    if e.Integrity? && e.error in errors {
      var i :| 0 <= i < |errors| && errors[i] == e.error;
      assert Wrapped(errors)[i] == e;
    }
  }

  /** What is reported against a manifest: what is wrong with the campaign, and what differs in some row. */
  ghost predicate ReportsAgainst(e: ManifestError, m: Manifest, items: seq<Item>)
    requires Usable(m)
  {
    if e.Integrity? then Reports(e.error, items, Texts(m.tasks), Ints(m.repetitions), Some(Texts(m.harnesses)))
    else DiffersIn(e, m, items, |items|)
  }

  ghost predicate DiffersIn(e: ManifestError, m: Manifest, items: seq<Item>, n: nat)
    requires Usable(m) && n <= |items|
  {
    exists i :: 0 <= i < n && DiffersAt(e, m, items, i)
  }

  lemma DiffersInMore(e: ManifestError, m: Manifest, items: seq<Item>, n: nat)
    requires Usable(m) && n < |items|
    ensures DiffersIn(e, m, items, n + 1) <==> DiffersIn(e, m, items, n) || DiffersAt(e, m, items, n)
  {
  }

  ghost predicate DiffersAt(e: ManifestError, m: Manifest, items: seq<Item>, i: nat)
    requires Usable(m) && i < |items|
  {
    items[i].Object? && Differing(e, m, items[i].row)
  }

  /** No error means: the rows are objects, and the manifest, being usable, accepts them. */
  method ManifestErrors(manifest: Option<Manifest>, items: seq<Item>) returns (errors: seq<ManifestError>)
    ensures errors == [] <==>
      manifest.Some? && Usable(manifest.value) && AllObjects(items) && Accepted(manifest.value, Rows(items))
    ensures manifest.None? ==> errors == [NoManifest]
    ensures manifest.Some? && !Usable(manifest.value) ==>
      errors == [if !Members(manifest.value) then BadMembers else if manifest.value.identities.None? then NoIdentities else BadIsolations]
    ensures manifest.Some? && Usable(manifest.value) ==>
      forall e :: e in errors <==> ReportsAgainst(e, manifest.value, items)
  {
    if manifest.None? {
      return [NoManifest];
    }
    var m := manifest.value;
    if !Members(m) {
      return [BadMembers];
    }
    if m.identities.None? {
      return [NoIdentities];
    }
    if !Usable(m) {
      return [BadIsolations];
    }
    var found := IntegrityErrors(items, Texts(m.tasks), Ints(m.repetitions), Some(Texts(m.harnesses)));
    var differing := [];
    for i := 0 to |items|
      invariant differing == [] <==> forall j | 0 <= j < i && items[j].Object? :: Matches(m, items[j].row)
      invariant forall e :: e in differing <==> DiffersIn(e, m, items, i)
    {
      ghost var before := differing;
      var more := [];
      if items[i].Object? {
        more := RowErrors(m, items[i].row);
      }
      differing := differing + more;
      forall e ensures e in differing <==> DiffersIn(e, m, items, i + 1) {
        DiffersInMore(e, m, items, i);
        assert e in before <==> DiffersIn(e, m, items, i);
        assert e in more <==> DiffersAt(e, m, items, i);
      }
    }
    errors := Wrapped(found) + differing;
    forall e ensures e in errors <==> ReportsAgainst(e, m, items) {
      WrappedAre(found, e);
    }
    if AllObjects(items) {
      RowsOfObjects(items);
      SamePlan(m, items);
    }
  }

  lemma SamePlan(m: Manifest, items: seq<Item>)
    requires Members(m)
    ensures ExpectedKeys(Rows(items), Texts(m.tasks), Ints(m.repetitions), Some(Texts(m.harnesses))) == Planned(m)
  {
  }

  /** Acceptance by a manifest does not depend on the order of the rows. */
  lemma AcceptedInAnyOrder(m: Manifest, rows: seq<Row>, other: seq<Row>)
    requires Usable(m) && multiset(rows) == multiset(other)
    ensures Accepted(m, rows) <==> Accepted(m, other)
  {
    ReorderingIsIrrelevant(rows, other, Planned(m));
    if Accepted(m, rows) {
      MatchAll(m, rows, other);
    }
    if Accepted(m, other) {
      MatchAll(m, other, rows);
    }
  }

  /** A manifest gives the arms, so no row can be left out of what it accepts, and none repeated. */
  lemma NoRowLessOrMore(m: Manifest, rows: seq<Row>, i: nat, j: nat)
    requires Usable(m) && Accepted(m, rows) && i < |rows| && j <= |rows|
    ensures !Accepted(m, Without(rows, i)) && !Accepted(m, Repeating(rows, i, j))
  {
    OneSize(rows, Without(rows, i), Planned(m));
    OneSize(rows, Repeating(rows, i, j), Planned(m));
  }

  lemma MatchAll(m: Manifest, rows: seq<Row>, other: seq<Row>)
    requires Usable(m) && multiset(rows) == multiset(other) && forall i | 0 <= i < |rows| :: Matches(m, rows[i])
    ensures forall i | 0 <= i < |other| :: Matches(m, other[i])
  {
    forall i | 0 <= i < |other| ensures Matches(m, other[i]) {
      assert other[i] in multiset(other);
      assert other[i] in rows;
    }
  }

  // How many rows that makes.

  function Block(hs: set<string>, ts: set<string>, rs: set<int>): set<Key> {
    set h, t, r | h in hs && t in ts && r in rs :: Key(h, t, r)
  }

  lemma OneMoreTimes(n: int, k: int)
    ensures (n - 1) * k + k == n * k
  {
  }

  lemma {:induction false} BlockReps(h: string, t: string, rs: set<int>)
    ensures |Block({h}, {t}, rs)| == |rs|
    decreases |rs|
  {
    if rs == {} {
      assert Block({h}, {t}, rs) == {};
    } else {
      var r := MemberOf(rs);
      BlockReps(h, t, rs - {r});
      assert Block({h}, {t}, rs) == Block({h}, {t}, rs - {r}) + {Key(h, t, r)};
    }
  }

  lemma {:induction false} BlockTasks(h: string, ts: set<string>, rs: set<int>, k: nat)
    requires k == |rs|
    ensures |Block({h}, ts, rs)| == |ts| * k
    decreases |ts|
  {
    if ts == {} {
      assert Block({h}, ts, rs) == {};
    } else {
      var t := MemberOf(ts);
      BlockTasks(h, ts - {t}, rs, k);
      BlockReps(h, t, rs);
      SplitBlock(Block({h}, ts, rs), Block({h}, ts - {t}, rs), Block({h}, {t}, rs));
      OneMoreTimes(|ts|, k);
      assert |ts - {t}| == |ts| - 1;
    }
  }

  lemma SplitBlock(all: set<Key>, a: set<Key>, b: set<Key>)
    requires (forall k :: k in all <==> k in a || k in b) && a !! b
    ensures |all| == |a| + |b|
  {
    assert all == a + b;
  }

  lemma {:induction false} BlockSize(hs: set<string>, ts: set<string>, rs: set<int>, k: nat)
    requires forall h | h in hs :: |Block({h}, ts, rs)| == k
    ensures |Block(hs, ts, rs)| == |hs| * k
    decreases |hs|
  {
    if hs == {} {
      assert Block(hs, ts, rs) == {};
    } else {
      var h := MemberOf(hs);
      BlockSize(hs - {h}, ts, rs, k);
      SplitBlock(Block(hs, ts, rs), Block(hs - {h}, ts, rs), Block({h}, ts, rs));
      OneMoreTimes(|hs|, k);
      assert |hs - {h}| == |hs| - 1;
    }
  }

  lemma {:induction false} DistinctSize<T>(s: seq<T>)
    requires NoRepeats(s)
    ensures |Elements(s)| == |s|
  {
    if s == [] {
      assert Elements(s) == {};
    } else {
      var n := |s| - 1;
      DistinctSize(s[..n]);
      assert s[n] !in s[..n];
      assert Elements(s) == Elements(s[..n]) + {s[n]};
    }
  }

  lemma PlannedSize(m: Manifest)
    requires Members(m)
    ensures |Planned(m)| == |m.harnesses.value| * (|m.tasks.value| * |m.repetitions.value|)
  {
    var hs, ts, rs := Texts(m.harnesses), Texts(m.tasks), Ints(m.repetitions);
    DistinctSize(hs);
    DistinctSize(ts);
    DistinctSize(rs);
    var k := |ts| * |rs|;
    forall h ensures |Block({h}, Elements(ts), Elements(rs))| == k {
      BlockTasks(h, Elements(ts), Elements(rs), |rs|);
    }
    BlockSize(Elements(hs), Elements(ts), Elements(rs), k);
    assert Planned(m) == Block(Elements(hs), Elements(ts), Elements(rs));
  }

  /** An accepted campaign has as many rows as harnesses times tasks times repetitions. */
  lemma AcceptedCount(m: Manifest, rows: seq<Row>)
    requires Usable(m) && Accepted(m, rows)
    ensures |rows| == |m.harnesses.value| * (|m.tasks.value| * |m.repetitions.value|)
  {
    PlannedSize(m);
    CompleteIsOneToOne(rows, Planned(m), Key("", "", 0));
  }
}
