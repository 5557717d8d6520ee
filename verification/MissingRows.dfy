/**
 Rows left out of a complete campaign, or repeated (scripts/bench/campaign.py, `integrity_errors`).

 Without a list of harnesses the expected keys follow from the rows themselves, so they may change
 when a row goes: the arm it stood for is no longer expected if it was the arm's only row and the
 arm is not one of the standard pair. No other missing row goes unnoticed, and no repeated one.
*/
module MissingRows {
  import opened CampaignIntegrity
  import opened Wrappers

  function Without<T>(s: seq<T>, i: nat): seq<T>
    requires i < |s|
  {
    s[..i] + s[i + 1..]
  }

  function Repeating<T>(s: seq<T>, i: nat, j: nat): seq<T>
    requires i < |s| && j <= |s|
  {
    s[..j] + [s[i]] + s[j..]
  }

  lemma WithoutAt<T>(s: seq<T>, i: nat, k: nat)
    requires i < |s| && k < |s| - 1
    ensures Without(s, i)[k] == s[if k < i then k else k + 1]
  {
  }

  lemma RepeatingAt<T>(s: seq<T>, i: nat, j: nat, k: nat)
    requires i < |s| && j <= |s| && k < |s| + 1
    ensures Repeating(s, i, j)[k] == if k < j then s[k] else if k == j then s[i] else s[k - 1]
  {
  }

  lemma RowsAre(items: seq<Item>, rows: seq<Row>)
    requires |items| == |rows| && forall k | 0 <= k < |items| :: items[k] == Object(rows[k])
    ensures AllObjects(items) && Rows(items) == rows
  {
    RowsOfObjects(items);
  }

  lemma RowsWithout(items: seq<Item>, i: nat)
    requires AllObjects(items) && i < |items|
    ensures |Rows(items)| == |items|
    ensures AllObjects(Without(items, i)) && Rows(Without(items, i)) == Without(Rows(items), i)
  {
    RowsOfObjects(items);
    var rows := Rows(items);
    forall k | 0 <= k < |items| - 1 ensures Without(items, i)[k] == Object(Without(rows, i)[k]) {
      WithoutAt(items, i, k);
      WithoutAt(rows, i, k);
    }
    RowsAre(Without(items, i), Without(rows, i));
  }

  lemma RowsRepeating(items: seq<Item>, i: nat, j: nat)
    requires AllObjects(items) && i < |items| && j <= |items|
    ensures |Rows(items)| == |items|
    ensures AllObjects(Repeating(items, i, j)) && Rows(Repeating(items, i, j)) == Repeating(Rows(items), i, j)
  {
    RowsOfObjects(items);
    var rows := Rows(items);
    forall k | 0 <= k < |items| + 1 ensures Repeating(items, i, j)[k] == Object(Repeating(rows, i, j)[k]) {
      RepeatingAt(items, i, j, k);
      RepeatingAt(rows, i, j, k);
    }
    RowsAre(Repeating(items, i, j), Repeating(rows, i, j));
  }

  lemma RepeatingSameRows(rows: seq<Row>, i: nat, j: nat)
    requires i < |rows| && j <= |rows|
    ensures forall row :: row in Repeating(rows, i, j) <==> row in rows
  {
    assert rows == rows[..j] + rows[j..];
  }

  /** Repeating any row at any place is rejected, whether or not the arms are given. */
  lemma RepeatedRowFails(items: seq<Item>, tasks: seq<string>, reps: seq<int>, harnesses: Option<seq<string>>, i: nat, j: nat)
    requires Passes(items, tasks, reps, harnesses) && i < |items| && j <= |items|
    ensures !Passes(Repeating(items, i, j), tasks, reps, harnesses)
  {
    var rows := Rows(items);
    RowsRepeating(items, i, j);
    RepeatingSameRows(rows, i, j);
    assert Arms(Repeating(rows, i, j)) == Arms(rows);
    OneSize(rows, Repeating(rows, i, j), ExpectedKeys(rows, tasks, reps, harnesses));
  }

  /** The row is all there is of an arm beyond the standard pair. */
  predicate WholeExtraArm(rows: seq<Row>, i: nat)
    requires i < |rows|
  {
    var h := Get(rows[i], "harness");
    && h != Text("davinci") && h != Text("codex")
    && forall k | 0 <= k < |rows| && k != i :: Get(rows[k], "harness") != h
  }

  lemma ArmsWithout(rows: seq<Row>, i: nat)
    requires i < |rows| && Get(rows[i], "harness").Text?
    ensures Arms(Without(rows, i)) ==
      if WholeExtraArm(rows, i) then Arms(rows) - {Get(rows[i], "harness").s} else Arms(rows)
  {
    var fewer, h := Without(rows, i), Get(rows[i], "harness");
    forall row ensures row in fewer <==> exists k :: 0 <= k < |rows| && k != i && rows[k] == row {
      if k :| 0 <= k < |rows| && k != i && rows[k] == row {
        assert fewer[if k < i then k else k - 1] == row;
      }
      if row in fewer {
        var n :| 0 <= n < |fewer| && fewer[n] == row;
        assert rows[if n < i then n else n + 1] == row;
      }
    }
    forall x
      ensures x in Arms(fewer) <==> x in Arms(rows) && !(WholeExtraArm(rows, i) && x == h.s)
    {
      if x in Arms(rows) && x !in {"davinci", "codex"} {
        var k :| 0 <= k < |rows| && Get(rows[k], "harness") == Text(x);
        if k != i {
          assert rows[k] in fewer;
        } else if !WholeExtraArm(rows, i) {
          var m :| 0 <= m < |rows| && m != i && Get(rows[m], "harness") == h;
          assert rows[m] in fewer;
        }
      }
    }
  }

  lemma KeyStays(rows: seq<Row>, i: nat, k: Key)
    requires i < |rows| && k in Keys(rows) && KeyOf(rows[i]) != Some(k)
    ensures k in Keys(Without(rows, i))
  {
    var m := RowOf(rows, k);
    var n := if m < i then m else m - 1;
    WithoutAt(rows, i, n);
    KeyIsThere(Without(rows, i), n);
  }

  lemma KeyGoes(rows: seq<Row>, i: nat, k: Key)
    requires i < |rows| && k in Keys(Without(rows, i))
    requires forall a, b | 0 <= a < b < |rows| :: KeyOf(rows[a]) != KeyOf(rows[b])
    ensures k in Keys(rows) && KeyOf(rows[i]) != Some(k)
  {
    var n := RowOf(Without(rows, i), k);
    WithoutAt(rows, i, n);
    KeyIsThere(rows, if n < i then n else n + 1);
  }

  lemma KeysWithout(rows: seq<Row>, expected: set<Key>, i: nat)
    requires Complete(rows, expected) && i < |rows|
    ensures Sound(rows[i]) && KeyOf(rows[i]).value in expected
    ensures Keys(Without(rows, i)) == expected - {KeyOf(rows[i]).value}
  {
    KeysAreExpected(rows, expected);
    GoodFacts(rows, expected);
    KeyIsThere(rows, i);
    forall k ensures k in Keys(Without(rows, i)) <==> k in expected && KeyOf(rows[i]) != Some(k) {
      if k in Keys(Without(rows, i)) {
        KeyGoes(rows, i, k);
      }
      if k in expected && KeyOf(rows[i]) != Some(k) {
        KeyStays(rows, i, k);
      }
    }
  }

  /** The keys that are expected when an arm is gone. */
  lemma KeysOfFewerArms(rows: seq<Row>, tasks: seq<string>, reps: seq<int>, i: nat)
    requires i < |rows| && WholeExtraArm(rows, i)
    requires Complete(rows, ExpectedKeys(rows, tasks, reps, None))
    ensures KeyOf(rows[i]).Some?
    ensures ExpectedKeys(Without(rows, i), tasks, reps, None) ==
      ExpectedKeys(rows, tasks, reps, None) - {KeyOf(rows[i]).value}
  {
    var expected := ExpectedKeys(rows, tasks, reps, None);
    KeysAreExpected(rows, expected);
    KeysWithout(rows, expected, i);
    ArmsWithout(rows, i);
    var key := KeyOf(rows[i]).value;
    forall k | k in expected && k.harness == key.harness ensures k == key {
      var m := RowOf(rows, k);
      assert Get(rows[m], "harness") == Get(rows[i], "harness");
    }
  }

  /** The standard pair has rows, so something is left. */
  lemma PairRemains(rows: seq<Row>, tasks: seq<string>, reps: seq<int>, i: nat)
    requires i < |rows| && WholeExtraArm(rows, i)
    requires Complete(rows, ExpectedKeys(rows, tasks, reps, None))
    ensures Without(rows, i) != []
  {
    var expected := ExpectedKeys(rows, tasks, reps, None);
    KeysWithout(rows, expected, i);
    var key := KeyOf(rows[i]).value;
    var n := RowOf(Without(rows, i), Key("davinci", key.task, key.rep));
  }

  /** What is complete in any order stays so when a row and its key go. */
  lemma FewerAnyOrder(rows: seq<Row>, expected: set<Key>, i: nat)
    requires Complete(rows, expected) && i < |rows| && Without(rows, i) != []
    ensures KeyOf(rows[i]).Some?
    ensures CompleteAnyOrder(Without(rows, i), expected - {KeyOf(rows[i]).value})
  {
    KeysWithout(rows, expected, i);
    AnyOrderFrom(rows, expected);
    assert |expected - {KeyOf(rows[i]).value}| == |expected| - 1;
    assert forall row | row in Without(rows, i) :: row in rows;
  }

  lemma ExtraArmLeaves(rows: seq<Row>, tasks: seq<string>, reps: seq<int>, i: nat)
    requires i < |rows| && WholeExtraArm(rows, i)
    requires Complete(rows, ExpectedKeys(rows, tasks, reps, None))
    ensures Without(rows, i) != []
    ensures Complete(Without(rows, i), ExpectedKeys(Without(rows, i), tasks, reps, None))
  {
    PairRemains(rows, tasks, reps, i);
    FewerAnyOrder(rows, ExpectedKeys(rows, tasks, reps, None), i);
    KeysOfFewerArms(rows, tasks, reps, i);
    OrderedFrom(Without(rows, i), ExpectedKeys(Without(rows, i), tasks, reps, None));
  }

  /**
   Leaving a row out of a complete campaign goes unnoticed exactly if the arms are not given and
   the row is the whole of an arm beyond the standard pair: that arm is then no longer expected.
  */
  lemma MissingRowFailsUnless(items: seq<Item>, tasks: seq<string>, reps: seq<int>, harnesses: Option<seq<string>>, i: nat)
    requires Passes(items, tasks, reps, harnesses) && i < |items|
    ensures |Rows(items)| == |items|
    ensures Passes(Without(items, i), tasks, reps, harnesses) <==> harnesses.None? && WholeExtraArm(Rows(items), i)
  {
    var rows := Rows(items);
    RowsWithout(items, i);
    KeysWithout(rows, ExpectedKeys(rows, tasks, reps, harnesses), i);
    ArmsWithout(rows, i);
    if harnesses.None? && WholeExtraArm(rows, i) {
      ExtraArmLeaves(rows, tasks, reps, i);
    } else {
      OneSize(rows, Without(rows, i), ExpectedKeys(rows, tasks, reps, harnesses));
    }
  }

  /** A failed run of a harness, complete in itself. */
  function Sample(harness: string): Row {
    map["harness" := Text(harness), "task" := Text("t"), "rep" := Int(1), "schema_version" := Int(2),
        "campaign" := Text("c"), "variant" := Text("v"), "fixture_hash" := Text("f"), "model" := Text("m"),
        "effort_policy" := Text("e"), "service_tier" := Text("s"), "binary_sha256" := Text("b"),
        "effective_settings" := Text("{}"), "grading_isolation" := Text("container"),
        "wall_s" := Int(1), "pass" := Bool(false)]
  }

  function Samples(harnesses: seq<string>): seq<Item> {
    seq(|harnesses|, i requires 0 <= i < |harnesses| => Object(Sample(harnesses[i])))
  }

  lemma SampleKey(harness: string)
    ensures KeyOf(Sample(harness)) == Some(Key(harness, "t", 1))
    ensures Get(Sample(harness), "harness") == Text(harness)
  {
  }

  lemma SampleIdentity(harness: string)
    ensures Get(Sample(harness), "campaign") == Text("c") && Get(Sample(harness), "variant") == Text("v")
    ensures Get(Sample(harness), "grading_isolation") == Text("container")
    ensures Get(Sample(harness), "binary_sha256") == Text("b") && Get(Sample(harness), "effective_settings") == Text("{}")
  {
  }

  lemma SampleComparable(harness: string, f: string)
    requires f in COMPARABLE
    ensures Get(Sample(harness), f) != Null
  {
  }

  lemma SampleResult(harness: string)
    ensures Get(Sample(harness), "schema_version") == Int(2) && Get(Sample(harness), "wall_s") == Int(1)
    ensures Get(Sample(harness), "exit") == Null && Get(Sample(harness), "pass") == Bool(false)
  {
  }

  /** A run that failed, and says everything that is asked of it. */
  lemma FailedIsSound(row: Row)
    requires KeyOf(row).Some? && (forall f | f in COMPARABLE :: Get(row, f) != Null)
    requires Get(row, "grading_isolation") == Text("container")
    requires Get(row, "binary_sha256") != Null && Get(row, "effective_settings") != Null
    requires Get(row, "schema_version") == Int(2) && Get(row, "wall_s") == Int(1)
    requires Get(row, "exit") == Null && Get(row, "pass") == Bool(false)
    ensures Sound(row)
  {
  }

  lemma SampleSound(harness: string)
    ensures Sound(Sample(harness)) && Named(Sample(harness))
  {
    SampleKey(harness);
    SampleIdentity(harness);
    SampleResult(harness);
    forall f | f in COMPARABLE ensures Get(Sample(harness), f) != Null {
      SampleComparable(harness, f);
    }
    FailedIsSound(Sample(harness));
  }

  lemma SamplesAgree(a: string, b: string, f: string)
    requires f != "harness"
    ensures Get(Sample(a), f) == Get(Sample(b), f)
  {
    assert Sample(a)["harness" := Null] == Sample(b)["harness" := Null];
    assert Get(Sample(a)["harness" := Null], f) == Get(Sample(a), f);
    assert Get(Sample(b)["harness" := Null], f) == Get(Sample(b), f);
  }

  lemma AlikeFrom(a: Row, b: Row)
    requires forall f | f != "harness" :: Get(a, f) == Get(b, f)
    ensures Alike(a, b) && SameArm(a, b)
  {
    forall f | f in COMPARABLE ensures AlikeIn(a, b, f) {
    }
  }

  lemma SamplesFit(a: string, b: string)
    ensures Alike(Sample(a), Sample(b)) && SameArm(Sample(a), Sample(b))
  {
    forall f | f != "harness" ensures Get(Sample(a), f) == Get(Sample(b), f) {
      SamplesAgree(a, b, f);
    }
    AlikeFrom(Sample(a), Sample(b));
  }

  lemma SampleRows(hs: seq<string>)
    ensures AllObjects(Samples(hs)) && |Rows(Samples(hs))| == |hs|
    ensures forall i | 0 <= i < |hs| :: Rows(Samples(hs))[i] == Sample(hs[i])
  {
    RowsOfObjects(Samples(hs));
  }

  lemma RowOfSample(hs: seq<string>, row: Row) returns (h: string)
    requires row in Rows(Samples(hs))
    ensures h in hs && row == Sample(h) && KeyOf(row) == Some(Key(h, "t", 1)) && Get(row, "harness") == Text(h)
  {
    SampleRows(hs);
    var i :| 0 <= i < |hs| && Rows(Samples(hs))[i] == row;
    h := hs[i];
    SampleKey(h);
  }

  lemma SampleHarness(hs: seq<string>, h: string)
    requires h in hs
    ensures Key(h, "t", 1) in Keys(Rows(Samples(hs))) && h in Arms(Rows(Samples(hs)))
  {
    SampleRows(hs);
    SampleKey(h);
    var i :| 0 <= i < |hs| && hs[i] == h;
    KeyIsThere(Rows(Samples(hs)), i);
    assert Rows(Samples(hs))[i] in Rows(Samples(hs));
  }

  lemma SampleKeys(hs: seq<string>)
    ensures Keys(Rows(Samples(hs))) == set h | h in hs :: Key(h, "t", 1)
    ensures Arms(Rows(Samples(hs))) == (set h | h in hs) + {"davinci", "codex"}
  {
    var rows := Rows(Samples(hs));
    forall h | h in hs ensures Key(h, "t", 1) in Keys(rows) && h in Arms(rows) {
      SampleHarness(hs, h);
    }
    forall row | row in rows && KeyOf(row).Some?
      ensures KeyOf(row).value.harness in hs && KeyOf(row).value == Key(KeyOf(row).value.harness, "t", 1)
    {
      var h := RowOfSample(hs, row);
    }
    forall row | row in rows && Get(row, "harness").Text? ensures Get(row, "harness").s in hs {
      var h := RowOfSample(hs, row);
    }
  }

  lemma SamplesPass(hs: seq<string>, harnesses: Option<seq<string>>)
    requires "davinci" in hs && "codex" in hs && (forall i, j | 0 <= i < j < |hs| :: hs[i] != hs[j])
    requires harnesses == None || harnesses == Some(hs)
    ensures Passes(Samples(hs), ["t"], [1], harnesses)
  {
    var rows := Rows(Samples(hs));
    SampleRows(hs);
    SampleKeys(hs);
    var expected := ExpectedKeys(rows, ["t"], [1], harnesses);
    assert expected == Keys(rows);
    forall i | 0 <= i < |rows| ensures RowFits(rows[i], expected) && Named(rows[i]) {
      SampleKey(hs[i]);
      SampleSound(hs[i]);
      KeyIsThere(rows, i);
    }
    forall i, j | 0 <= i < j < |rows| ensures PairFits(rows[i], rows[j]) {
      SampleKey(hs[i]);
      SampleKey(hs[j]);
      SamplesFit(hs[i], hs[j]);
    }
  }

  /** Three arms are complete and so are the first two alone, unless the third was asked for. */
  lemma DroppedArmPasses()
    ensures var items := Samples(["davinci", "codex", "droid"]);
      && Passes(items, ["t"], [1], None)
      && Passes(Without(items, 2), ["t"], [1], None)
      && Passes(items, ["t"], [1], Some(["davinci", "codex", "droid"]))
      && !Passes(Without(items, 2), ["t"], [1], Some(["davinci", "codex", "droid"]))
  {
    var hs := ["davinci", "codex", "droid"];
    SamplesPass(hs, None);
    SamplesPass(hs, Some(hs));
    SampleRows(hs);
    MissingRowFailsUnless(Samples(hs), ["t"], [1], Some(hs), 2);
    SamplesPass(["davinci", "codex"], None);
    assert Without(Samples(hs), 2) == Samples(["davinci", "codex"]);
  }

  // The order of the rows.

  lemma RowsHold(items: seq<Item>, row: Row)
    requires AllObjects(items)
    ensures row in Rows(items) <==> Object(row) in items
  {
    RowsOfObjects(items);
    if row in Rows(items) {
      var i :| 0 <= i < |items| && Rows(items)[i] == row;
      assert items[i] == Object(row);
    }
    if Object(row) in items {
      var i :| 0 <= i < |items| && items[i] == Object(row);
      assert Rows(items)[i] == row;
    }
  }

  lemma PassesInOtherOrder(items: seq<Item>, other: seq<Item>, tasks: seq<string>, reps: seq<int>, harnesses: Option<seq<string>>)
    requires Passes(items, tasks, reps, harnesses)
    requires |items| == |other| && forall item :: item in items <==> item in other
    ensures Passes(other, tasks, reps, harnesses)
  {
    forall i | 0 <= i < |other| ensures other[i].Object? {
      assert other[i] in items;
    }
    RowsOfObjects(items);
    RowsOfObjects(other);
    var rows, rows' := Rows(items), Rows(other);
    forall row ensures row in rows <==> row in rows' {
      RowsHold(items, row);
      RowsHold(other, row);
    }
    assert Arms(rows) == Arms(rows');
    var expected := ExpectedKeys(rows, tasks, reps, harnesses);
    AnyOrderFrom(rows, expected);
    SameElements(rows, rows', expected);
    OrderedFrom(rows', expected);
  }

  /** What passes does not depend on the order of the rows, with the arms given or taken from them. */
  lemma OrderedAnyWayPasses(items: seq<Item>, other: seq<Item>, tasks: seq<string>, reps: seq<int>, harnesses: Option<seq<string>>)
    requires multiset(items) == multiset(other)
    ensures Passes(items, tasks, reps, harnesses) <==> Passes(other, tasks, reps, harnesses)
  {
    assert |multiset(items)| == |items| && |multiset(other)| == |other|;
    forall item ensures item in items <==> item in other {
      assert item in multiset(items) <==> item in multiset(other);
    }
    if Passes(items, tasks, reps, harnesses) {
      PassesInOtherOrder(items, other, tasks, reps, harnesses);
    }
    if Passes(other, tasks, reps, harnesses) {
      PassesInOtherOrder(other, items, tasks, reps, harnesses);
    }
  }
}
