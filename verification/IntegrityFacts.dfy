/** When the rows of a campaign are complete and as pinned, in the rows' own members (scripts/bench/campaign.py). */
module IntegrityFacts {
  // Each condition names the members it is about and the values they must have.

  import opened CampaignIntegrity
  import opened CampaignManifest
  import opened Sequences
  import opened Wrappers

  // Values.

  /** What Python compares numbers by: true is one, false is zero. */
  function Amount(v: Val): Option<real> {
    if v == Bool(true) then Some(1.0) else if v == Bool(false) then Some(0.0)
    else if v.Int? then Some(v.i as real) else if v.Float? then Some(v.r) else None
  }

  predicate Equal(a: Val, b: Val) { a == b || (Amount(a).Some? && Amount(a) == Amount(b)) }

  /** A member that is missing compares like null. */
  function Value(row: Row, member: string): Val { if member in row then row[member] else Null }

  predicate Agree(a: Row, b: Row, member: string) { Equal(Value(a, member), Value(b, member)) }

  predicate Present(row: Row, member: string) { member in row && row[member] != Null }

  predicate Empty(v: Val) { v in {Null, Bool(false), Int(0), Float(0.0), Text(""), Nested("[]"), Nested("{}")} }

  // One row.

  predicate Identity(row: Row) {
    && "harness" in row && row["harness"].Text? && "task" in row && row["task"].Text?
    && "rep" in row && row["rep"].Int?
  }

  predicate IsRowOf(row: Row, harness: string, task: string, rep: int) {
    && "harness" in row && row["harness"] == Text(harness) && "task" in row && row["task"] == Text(task)
    && "rep" in row && row["rep"] == Int(rep)
  }

  predicate Describes(row: Row) {
    && Present(row, "fixture_hash") && Present(row, "model") && Present(row, "effort_policy")
    && Present(row, "service_tier") && Present(row, "binary_sha256") && Present(row, "effective_settings")
  }

  predicate Isolated(row: Row) {
    "grading_isolation" in row && row["grading_isolation"] in {Text("diagnostic-only"), Text("container")}
  }

  /** A duration that is finite and not negative. */
  predicate Timed(row: Row) {
    && "wall_s" in row
    && ((row["wall_s"].Int? && row["wall_s"].i >= 0) || (row["wall_s"].Float? && row["wall_s"].r >= 0.0))
  }

  predicate CleanExit(row: Row) {
    && "exit" in row && row["exit"] == Int(0) && "grader_pass" in row && row["grader_pass"] == Bool(true)
    && "unrelated" in row && row["unrelated"] == Nested("[]")
  }

  predicate NothingLeft(row: Row) {
    && "cleanup_complete" in row && row["cleanup_complete"] == Bool(true)
    && "transaction_leak" in row && row["transaction_leak"] == Bool(false)
    && "artifact_leak" in row && row["artifact_leak"] == Bool(false)
  }

  /** The row claims success exactly if each part of it is there. */
  predicate Honest(row: Row) { "pass" in row && row["pass"] == Bool(CleanExit(row) && NothingLeft(row)) }

  predicate GoodRow(row: Row) {
    && Identity(row) && Equal(Value(row, "schema_version"), Int(2)) && Describes(row) && Isolated(row)
    && Timed(row) && Honest(row)
    && !Empty(Value(row, "campaign")) && !Empty(Value(row, "variant"))
  }

  // Two rows.

  predicate SameCampaign(a: Row, b: Row) {
    && Agree(a, b, "campaign") && Agree(a, b, "variant") && Agree(a, b, "fixture_hash")
    && Agree(a, b, "model") && Agree(a, b, "effort_policy") && Agree(a, b, "service_tier")
  }

  predicate SameBuild(a: Row, b: Row) {
    Agree(a, b, "binary_sha256") && Agree(a, b, "effective_settings") && Agree(a, b, "grading_isolation")
  }

  predicate GoodPair(a: Row, b: Row) {
    SameCampaign(a, b) && (Value(a, "harness") == Value(b, "harness") ==> SameBuild(a, b))
  }

  // The campaign.

  /** The row of a harness, task and repetition stands here and nowhere else. */
  predicate OnlyAt(rows: seq<Row>, i: int, harness: string, task: string, rep: int) {
    && 0 <= i < |rows| && IsRowOf(rows[i], harness, task, rep)
    && forall j | 0 <= j < |rows| && IsRowOf(rows[j], harness, task, rep) :: j == i
  }

  /** One row for every harness, task and repetition, and none besides; each good, and all of one campaign. */
  ghost predicate Whole(rows: seq<Row>, hs: set<string>, ts: set<string>, rs: set<int>) {
    && rows != [] && AllGood(rows)
    && (forall h, t, r | h in hs && t in ts && r in rs :: exists i :: OnlyAt(rows, i, h, t, r))
    && (forall i | 0 <= i < |rows| :: Planned(rows, i, hs, ts, rs))
  }

  ghost predicate AllGood(rows: seq<Row>) {
    && (forall row | row in rows :: GoodRow(row))
    && (forall a, b | a in rows && b in rows :: GoodPair(a, b))
  }

  predicate Planned(rows: seq<Row>, i: nat, hs: set<string>, ts: set<string>, rs: set<int>)
    requires i < |rows|
  {
    exists h, t, r :: h in hs && t in ts && r in rs && OnlyAt(rows, i, h, t, r)
  }

  // The same as what the checks ask for.

  lemma EqualIsSame(a: Val, b: Val)
    ensures Equal(a, b) <==> Same(a, b)
  {
  }

  lemma AgreeIsAlike(a: Row, b: Row, member: string)
    ensures Agree(a, b, member) <==> AlikeIn(a, b, member)
  {
    EqualIsSame(Value(a, member), Value(b, member));
  }

  lemma EmptyIsNotTruthy(v: Val)
    ensures Empty(v) <==> !Truthy(v)
  {
  }

  lemma IdentityIsKey(row: Row, h: string, t: string, r: int)
    ensures Identity(row) <==> KeyOf(row).Some?
    ensures IsRowOf(row, h, t, r) <==> KeyOf(row) == Some(Key(h, t, r))
  {
  }

  lemma DescribesIsComparable(row: Row)
    ensures Describes(row) <==>
      && (forall f | f in COMPARABLE :: Get(row, f) != Null)
      && Get(row, "binary_sha256") != Null && Get(row, "effective_settings") != Null
  {
    assert COMPARABLE == ["fixture_hash", "model", "effort_policy", "service_tier"];
    assert COMPARABLE[0] in COMPARABLE && COMPARABLE[1] in COMPARABLE && COMPARABLE[2] in COMPARABLE && COMPARABLE[3] in COMPARABLE;
  }

  lemma HonestIsSuccess(row: Row)
    ensures Honest(row) <==> Get(row, "pass") == Bool(TaskSuccess(row))
  {
  }

  lemma TimedIsDuration(row: Row)
    ensures Timed(row) <==> Duration(Get(row, "wall_s"))
    ensures Isolated(row) <==> Isolation(Get(row, "grading_isolation"))
  {
  }

  lemma GoodRowIsSound(row: Row)
    ensures GoodRow(row) <==> Sound(row) && Named(row)
  {
    IdentityIsKey(row, "", "", 0);
    EqualIsSame(Value(row, "schema_version"), Int(2));
    DescribesIsComparable(row);
    HonestIsSuccess(row);
    TimedIsDuration(row);
    EmptyIsNotTruthy(Value(row, "campaign"));
    EmptyIsNotTruthy(Value(row, "variant"));
  }

  lemma CampaignIsAlike(a: Row, b: Row)
    ensures SameCampaign(a, b) <==> Alike(a, b)
  {
    AgreeIsAlike(a, b, "campaign");
    AgreeIsAlike(a, b, "variant");
    ComparableIsAlike(a, b);
  }

  lemma ComparableIsAlike(a: Row, b: Row)
    ensures (forall f | f in COMPARABLE :: AlikeIn(a, b, f)) <==>
      Agree(a, b, "fixture_hash") && Agree(a, b, "model") && Agree(a, b, "effort_policy") && Agree(a, b, "service_tier")
  {
    assert COMPARABLE[0] in COMPARABLE && COMPARABLE[1] in COMPARABLE && COMPARABLE[2] in COMPARABLE && COMPARABLE[3] in COMPARABLE;
    AgreeIsAlike(a, b, "fixture_hash");
    AgreeIsAlike(a, b, "model");
    AgreeIsAlike(a, b, "effort_policy");
    AgreeIsAlike(a, b, "service_tier");
  }

  lemma GoodPairIsAlike(a: Row, b: Row)
    ensures GoodPair(a, b) <==> Alike(a, b) && SameArm(a, b)
  {
    CampaignIsAlike(a, b);
    AgreeIsAlike(a, b, "binary_sha256");
    AgreeIsAlike(a, b, "effective_settings");
    AgreeIsAlike(a, b, "grading_isolation");
  }

  ghost predicate AllSound(rows: seq<Row>) {
    && (forall row | row in rows :: Sound(row) && Named(row))
    && forall a, b | a in rows && b in rows :: Alike(a, b) && SameArm(a, b)
  }

  lemma GoodIsSound(rows: seq<Row>)
    ensures AllGood(rows) <==> AllSound(rows)
  {
    forall row ensures GoodRow(row) <==> Sound(row) && Named(row) {
      GoodRowIsSound(row);
    }
    forall a, b ensures GoodPair(a, b) <==> Alike(a, b) && SameArm(a, b) {
      GoodPairIsAlike(a, b);
    }
  }

  ghost function Combined(hs: set<string>, ts: set<string>, rs: set<int>): set<Key> {
    set h, t, r | h in hs && t in ts && r in rs :: Key(h, t, r)
  }

  /** One place for every key, and a key for every place. */
  ghost predicate OneEach(rows: seq<Row>, keys: set<Key>) {
    && (forall key | key in keys :: exists i :: KeyOnlyAt(rows, i, key))
    && (forall i | 0 <= i < |rows| :: KeyOf(rows[i]).Some? && KeyOf(rows[i]).value in keys && KeyOnlyAt(rows, i, KeyOf(rows[i]).value))
  }

  predicate KeyOnlyAt(rows: seq<Row>, i: int, key: Key) {
    0 <= i < |rows| && KeyOf(rows[i]) == Some(key) && forall j | 0 <= j < |rows| && KeyOf(rows[j]) == Some(key) :: j == i
  }

  lemma OnlyAtIsKeyOnlyAt(rows: seq<Row>, i: int, h: string, t: string, r: int)
    ensures OnlyAt(rows, i, h, t, r) <==> KeyOnlyAt(rows, i, Key(h, t, r))
  {
    forall j | 0 <= j < |rows| ensures IsRowOf(rows[j], h, t, r) <==> KeyOf(rows[j]) == Some(Key(h, t, r)) {
      IdentityIsKey(rows[j], h, t, r);
    }
  }

  lemma OneEachHasPlaces(rows: seq<Row>, hs: set<string>, ts: set<string>, rs: set<int>)
    requires OneEach(rows, Combined(hs, ts, rs))
    ensures forall h, t, r | h in hs && t in ts && r in rs :: exists i :: OnlyAt(rows, i, h, t, r)
    ensures forall i | 0 <= i < |rows| :: Planned(rows, i, hs, ts, rs)
  {
    forall h, t, r | h in hs && t in ts && r in rs ensures exists i :: OnlyAt(rows, i, h, t, r) {
      assert Key(h, t, r) in Combined(hs, ts, rs);
      var i :| KeyOnlyAt(rows, i, Key(h, t, r));
      OnlyAtIsKeyOnlyAt(rows, i, h, t, r);
    }
    forall i | 0 <= i < |rows| ensures Planned(rows, i, hs, ts, rs) {
      var key := KeyOf(rows[i]).value;
      OnlyAtIsKeyOnlyAt(rows, i, key.harness, key.task, key.rep);
    }
  }

  lemma PlacesAreOneEach(rows: seq<Row>, hs: set<string>, ts: set<string>, rs: set<int>)
    requires forall h, t, r | h in hs && t in ts && r in rs :: exists i :: OnlyAt(rows, i, h, t, r)
    requires forall i | 0 <= i < |rows| :: Planned(rows, i, hs, ts, rs)
    ensures OneEach(rows, Combined(hs, ts, rs))
  {
    forall key | key in Combined(hs, ts, rs) ensures exists i :: KeyOnlyAt(rows, i, key) {
      var i :| OnlyAt(rows, i, key.harness, key.task, key.rep);
      OnlyAtIsKeyOnlyAt(rows, i, key.harness, key.task, key.rep);
    }
    forall i | 0 <= i < |rows|
      ensures KeyOf(rows[i]).Some? && KeyOf(rows[i]).value in Combined(hs, ts, rs) && KeyOnlyAt(rows, i, KeyOf(rows[i]).value)
    {
      assert Planned(rows, i, hs, ts, rs);
      var h, t, r :| h in hs && t in ts && r in rs && OnlyAt(rows, i, h, t, r);
      OnlyAtIsKeyOnlyAt(rows, i, h, t, r);
    }
  }

  lemma CompleteIsOneEach(rows: seq<Row>, keys: set<Key>)
    ensures Complete(rows, keys) <==> rows != [] && OneEach(rows, keys) && AllSound(rows)
  {
    if Complete(rows, keys) {
      AnyOrderFrom(rows, keys);
      forall key | key in keys ensures exists i :: KeyOnlyAt(rows, i, key) {
        CompleteIsOneToOne(rows, keys, key);
        var i :| 0 <= i < |rows| && KeyOf(rows[i]) == Some(key);
        assert KeyOnlyAt(rows, i, key);
      }
      forall i | 0 <= i < |rows|
        ensures KeyOf(rows[i]).Some? && KeyOf(rows[i]).value in keys && KeyOnlyAt(rows, i, KeyOf(rows[i]).value)
      {
        assert rows[i] in rows;
        KeyIsThere(rows, i);
        CompleteIsOneToOne(rows, keys, KeyOf(rows[i]).value);
      }
    }
    if rows != [] && OneEach(rows, keys) && AllSound(rows) {
      OneEachIsComplete(rows, keys);
    }
  }

  lemma OneEachIsComplete(rows: seq<Row>, keys: set<Key>)
    requires rows != [] && OneEach(rows, keys) && AllSound(rows)
    ensures Complete(rows, keys)
  {
    forall i | 0 <= i < |rows| ensures RowFits(rows[i], keys) && Named(rows[i]) {
      assert rows[i] in rows;
    }
    forall i, j | 0 <= i < j < |rows| ensures PairFits(rows[i], rows[j]) {
      assert rows[i] in rows && rows[j] in rows;
      assert KeyOnlyAt(rows, i, KeyOf(rows[i]).value);
    }
    forall key | key in keys ensures key in Keys(rows) {
      var i :| KeyOnlyAt(rows, i, key);
      KeyIsThere(rows, i);
    }
  }

  /** No error is reported of a campaign exactly if it is whole. */
  lemma CompleteIsWhole(rows: seq<Row>, hs: set<string>, ts: set<string>, rs: set<int>)
    ensures Complete(rows, Combined(hs, ts, rs)) <==> Whole(rows, hs, ts, rs)
  {
    CompleteIsOneEach(rows, Combined(hs, ts, rs));
    GoodIsSound(rows);
    if OneEach(rows, Combined(hs, ts, rs)) {
      OneEachHasPlaces(rows, hs, ts, rs);
    }
    if Whole(rows, hs, ts, rs) {
      PlacesAreOneEach(rows, hs, ts, rs);
    }
  }

  /** The arms of a campaign without a list: those that some row names, and always the standard two. */
  lemma ExpectedAre(rows: seq<Row>, tasks: seq<string>, reps: seq<int>, harnesses: Option<seq<string>>, h: string, t: string, r: int)
    ensures Key(h, t, r) in ExpectedKeys(rows, tasks, reps, harnesses) <==>
      && t in tasks && r in reps
      && (if harnesses.Some? then h in harnesses.value
          else h == "davinci" || h == "codex" || exists row :: row in rows && "harness" in row && row["harness"] == Text(h))
  {
    if harnesses.None? {
      if row :| row in rows && "harness" in row && row["harness"] == Text(h) {
        assert Get(row, "harness").Text? && Get(row, "harness").s == h;
      }
    }
  }

  // Against a manifest.

  predicate Pins(m: Manifest, row: Row, member: string) {
    member in m.fields && m.fields[member] != Null && Equal(Value(row, member), m.fields[member])
  }

  predicate PinsAll(m: Manifest, row: Row) {
    && Pins(m, row, "schema_version") && Pins(m, row, "campaign") && Pins(m, row, "variant")
    && Pins(m, row, "fixture_hash") && Pins(m, row, "model") && Pins(m, row, "effort_policy") && Pins(m, row, "service_tier")
  }

  /** A member that the manifest need not have. */
  predicate Allows(m: Manifest, row: Row, member: string) {
    member in m.fields ==> Equal(Value(row, member), m.fields[member])
  }

  predicate Labelled(row: Row, labels: Row, member: string) {
    member in labels && Equal(Value(row, member), labels[member])
  }

  /** The labels of the row's task; a task without labels has none of them. */
  predicate LabelsAgree(row: Row, labels: Row) {
    && Labelled(row, labels, "size_class") && Labelled(row, labels, "split") && Labelled(row, labels, "language")
    && Labelled(row, labels, "repository_id") && Labelled(row, labels, "reference_commit")
    && Labelled(row, labels, "visible_tests") && Labelled(row, labels, "requires_existing_test_changes")
  }

  /** The row of this harness and task is as the manifest pins it. */
  ghost predicate AsPinned(m: Manifest, row: Row, harness: string, task: string) {
    && PinsAll(m, row)
    && m.isolations.Some? && harness in m.isolations.value
    && Equal(Value(row, "grading_isolation"), m.isolations.value[harness])
    && m.identities.Some? && harness in m.identities.value && m.identities.value[harness].Some?
    && m.identities.value[harness].value != map[]
    && (forall f | f in m.identities.value[harness].value :: f in row && Equal(row[f], m.identities.value[harness].value[f]))
    && Allows(m, row, "private_suite_digest") && Allows(m, row, "price_table_hash")
    && (m.labels.Some? ==> task in m.labels.value && LabelsAgree(row, m.labels.value[task]))
  }

  lemma PinnedAre(m: Manifest, row: Row)
    ensures (forall i | 0 <= i < |PINNED| :: PinnedField(m, row, PINNED[i])) <==> PinsAll(m, row)
  {
    forall f ensures PinnedField(m, row, f) <==> Pins(m, row, f) {
      EqualIsSame(Value(row, f), Get(m.fields, f));
    }
    assert PINNED[0] == "schema_version" && PINNED[1] == "campaign" && PINNED[2] == "variant";
    assert PINNED[3] == "fixture_hash" && PINNED[4] == "model" && PINNED[5] == "effort_policy" && PINNED[6] == "service_tier";
  }

  lemma OptionalAre(m: Manifest, row: Row)
    ensures (forall i | 0 <= i < |OPTIONAL| :: OptionalField(m, row, OPTIONAL[i])) <==>
      Allows(m, row, "private_suite_digest") && Allows(m, row, "price_table_hash")
  {
    forall f ensures OptionalField(m, row, f) <==> Allows(m, row, f) {
      EqualIsSame(Value(row, f), Get(m.fields, f));
    }
    assert OPTIONAL[0] == "private_suite_digest" && OPTIONAL[1] == "price_table_hash";
  }

  lemma LabelsAre(m: Manifest, row: Row, task: string)
    requires m.labels.Some? && Value(row, "task") == Text(task)
    ensures (forall i | 0 <= i < |LABELS| :: LabelField(m, row, LABELS[i])) <==>
      task in m.labels.value && LabelsAgree(row, m.labels.value[task])
  {
    var labels := if task in m.labels.value then m.labels.value[task] else map[];
    assert LabelsOf(m, row) == labels;
    forall f ensures LabelField(m, row, f) <==> Labelled(row, labels, f) {
      EqualIsSame(Value(row, f), Get(labels, f));
    }
    LabelNames();
  }

  lemma LabelNames()
    ensures LABELS[0] == "size_class" && LABELS[1] == "split" && LABELS[2] == "language" && LABELS[3] == "repository_id"
    ensures LABELS[4] == "reference_commit" && LABELS[5] == "visible_tests" && LABELS[6] == "requires_existing_test_changes"
  {
  }

  lemma IdentitiesAre(row: Row, identity: Row)
    ensures (forall f | f in identity :: IdentityField(row, identity, f)) <==>
      forall f | f in identity :: f in row && Equal(row[f], identity[f])
  {
    forall f | f in identity ensures IdentityField(row, identity, f) <==> f in row && Equal(row[f], identity[f]) {
      if f in row {
        EqualIsSame(row[f], identity[f]);
      }
    }
  }

  lemma MatchesIsAsPinned(m: Manifest, row: Row, harness: string, task: string)
    requires Usable(m) && Value(row, "harness") == Text(harness) && Value(row, "task") == Text(task)
    requires harness in m.isolations.value
    ensures Matches(m, row) <==> AsPinned(m, row, harness, task)
  {
    PinnedAre(m, row);
    OptionalAre(m, row);
    if m.labels.Some? {
      LabelsAre(m, row, task);
    }
    EqualIsSame(Value(row, "grading_isolation"), m.isolations.value[harness]);
    if IdentityOf(m, row).Some? {
      IdentitiesAre(row, IdentityOf(m, row).value);
    }
  }

  predicate Listed(v: Option<seq<Val>>) { v.Some? && v.value != [] && NoRepeats(v.value) }

  /** The manifest lists tasks, repetitions and harnesses, and an isolation for each harness. */
  ghost predicate CanPin(m: Manifest) {
    && Listed(m.tasks) && (forall v | v in m.tasks.value :: v.Text?)
    && Listed(m.repetitions) && (forall v | v in m.repetitions.value :: v.Int?)
    && Listed(m.harnesses) && (forall v | v in m.harnesses.value :: v.Text?)
    && m.identities.Some? && m.isolations.Some?
    && forall v | v in m.harnesses.value ::
         v.s in m.isolations.value && m.isolations.value[v.s] in {Text("diagnostic-only"), Text("container")}
  }

  ghost function Strings(v: seq<Val>): set<string> { set x | x in v && x.Text? :: x.s }

  ghost function Integers(v: seq<Val>): set<int> { set x | x in v && x.Int? :: x.i }

  lemma CanPinIsUsable(m: Manifest)
    ensures CanPin(m) <==> Usable(m)
  {
    if Members(m) && m.isolations.Some? {
      forall i | 0 <= i < |m.harnesses.value| ensures Texts(m.harnesses)[i] == m.harnesses.value[i].s {
        assert m.harnesses.value[i] in m.harnesses.value;
      }
    }
    if CanPin(m) {
      assert forall i | 0 <= i < |m.tasks.value| :: m.tasks.value[i] in m.tasks.value;
      assert forall i | 0 <= i < |m.repetitions.value| :: m.repetitions.value[i] in m.repetitions.value;
      assert forall i | 0 <= i < |m.harnesses.value| :: m.harnesses.value[i] in m.harnesses.value;
    }
    if Usable(m) {
      forall v | v in m.harnesses.value
        ensures v.Text? && v.s in m.isolations.value && m.isolations.value[v.s] in {Text("diagnostic-only"), Text("container")}
      {
        var i :| 0 <= i < |m.harnesses.value| && m.harnesses.value[i] == v;
        assert Texts(m.harnesses)[i] == v.s;
      }
    }
  }

  lemma PlannedAre(m: Manifest)
    requires Members(m)
    ensures CampaignManifest.Planned(m) ==
      Combined(Strings(m.harnesses.value), Strings(m.tasks.value), Integers(m.repetitions.value))
  {
    TextsAre(m.harnesses);
    TextsAre(m.tasks);
    IntsAre(m.repetitions);
  }

  lemma TextsAre(v: Option<seq<Val>>)
    requires Names(v)
    ensures forall s :: s in Texts(v) <==> s in Strings(v.value)
  {
    forall s | s in Strings(v.value) ensures s in Texts(v) {
      var i :| 0 <= i < |v.value| && v.value[i] == Text(s);
      assert Texts(v)[i] == s;
    }
  }

  lemma IntsAre(v: Option<seq<Val>>)
    requires Numbers(v)
    ensures forall n :: n in Ints(v) <==> n in Integers(v.value)
  {
    forall n | n in Integers(v.value) ensures n in Ints(v) {
      var i :| 0 <= i < |v.value| && v.value[i] == Int(n);
      assert Ints(v)[i] == n;
    }
  }

  /** The campaign that the manifest plans, each row of it as pinned. */
  ghost predicate WholeAndPinned(m: Manifest, rows: seq<Row>)
    requires m.tasks.Some? && m.repetitions.Some? && m.harnesses.Some?
  {
    && Whole(rows, Strings(m.harnesses.value), Strings(m.tasks.value), Integers(m.repetitions.value))
    && forall row | row in rows :: RowAsPinned(m, row)
  }

  ghost predicate RowAsPinned(m: Manifest, row: Row) {
    forall h, t | Value(row, "harness") == Text(h) && Value(row, "task") == Text(t) :: AsPinned(m, row, h, t)
  }

  /** A manifest that can pin a campaign accepts exactly the whole campaign that it plans, as pinned. */
  lemma AcceptedIsPinned(m: Manifest, rows: seq<Row>)
    requires Usable(m)
    ensures Accepted(m, rows) <==> WholeAndPinned(m, rows)
  {
    var hs, ts, rs := Strings(m.harnesses.value), Strings(m.tasks.value), Integers(m.repetitions.value);
    PlannedAre(m);
    CompleteIsWhole(rows, hs, ts, rs);
    if Whole(rows, hs, ts, rs) {
      forall i | 0 <= i < |rows| ensures Matches(m, rows[i]) <==> RowAsPinned(m, rows[i]) {
        assert Planned(rows, i, hs, ts, rs);
        var h, t, r :| h in hs && t in ts && r in rs && OnlyAt(rows, i, h, t, r);
        IsolationKnown(m, h);
        MatchesIsAsPinned(m, rows[i], h, t);
      }
      RowsMatch(m, rows);
    }
  }

  lemma IsolationKnown(m: Manifest, h: string)
    requires Usable(m) && h in Strings(m.harnesses.value)
    ensures h in m.isolations.value
  {
    CanPinIsUsable(m);
  }

  lemma RowsMatch(m: Manifest, rows: seq<Row>)
    requires Usable(m)
    requires forall i | 0 <= i < |rows| :: Matches(m, rows[i]) <==> RowAsPinned(m, rows[i])
    ensures (forall i | 0 <= i < |rows| :: Matches(m, rows[i])) <==> forall row | row in rows :: RowAsPinned(m, row)
  {
    if forall row | row in rows :: RowAsPinned(m, row) {
      assert forall i | 0 <= i < |rows| :: rows[i] in rows;
    }
  }
}
