/**
 When the rows of a campaign are complete (scripts/bench/campaign.py).

 A row is a decoded JSON object; lists and objects inside it are known by their canonical text.
 Completeness is stated for all pairs of rows, while the code compares each row with the first one
 and with the first of its harness; the lemmas show that this comes to the same.
*/
module CampaignIntegrity {
  import opened Wrappers

  datatype Val = Null | Bool(b: bool) | Int(i: int) | Float(r: real) | NonFinite | Text(s: string) | Nested(canonical: string)

  type Row = map<string, Val>

  datatype Key = Key(harness: string, task: string, rep: int)

  datatype Error = EmptyCampaign | NotObjects | MissingIdentity | InvalidKey | Duplicate(key: Key) | Unexpected(key: Key)
                 | Schema | Mixed | Incompatible(field: string) | NoBinary | BinaryChanged | BadIsolation
                 | IsolationChanged | BadDuration | BadSuccess(key: Key) | Missing(key: Key)

  // Values.

  predicate Numeric(v: Val) { v.Bool? || v.Int? || v.Float? }

  function Number(v: Val): real
    requires Numeric(v)
  {
    match v
    case Bool(b) => if b then 1.0 else 0.0
    case Int(i) => i as real
    case Float(r) => r
  }

  /** Python's equality: true equals 1 and 1 equals 1.0. */
  predicate Same(a: Val, b: Val) {
    if Numeric(a) && Numeric(b) then Number(a) == Number(b) else a == b
  }

  predicate Truthy(v: Val) {
    !(v.Null? || v == Text("") || v == Nested("[]") || v == Nested("{}") || (Numeric(v) && Number(v) == 0.0))
  }

  /** A missing member reads as null. */
  function Get(row: Row, field: string): Val { if field in row then row[field] else Null }

  // Rows.

  const COMPARABLE := ["fixture_hash", "model", "effort_policy", "service_tier"]

  predicate Isolation(v: Val) { v == Text("diagnostic-only") || v == Text("container") }

  function KeyOf(row: Row): Option<Key> {
    var h, t, r := Get(row, "harness"), Get(row, "task"), Get(row, "rep");
    if h.Text? && t.Text? && r.Int? then Some(Key(h.s, t.s, r.i)) else None
  }

  /** Success needs every component; missing evidence is not success. */
  predicate TaskSuccess(row: Row) {
    && Get(row, "exit") == Int(0)
    && Get(row, "grader_pass") == Bool(true)
    && Get(row, "unrelated") == Nested("[]")
    && Get(row, "cleanup_complete") == Bool(true)
    && Get(row, "transaction_leak") == Bool(false)
    && Get(row, "artifact_leak") == Bool(false)
  }

  predicate Duration(v: Val) { (v.Int? && v.i >= 0) || (v.Float? && v.r >= 0.0) }

  /** What a row must be by itself. */
  predicate Sound(row: Row) {
    && KeyOf(row).Some?
    && Same(Get(row, "schema_version"), Int(2))
    && (forall f | f in COMPARABLE :: Get(row, f) != Null)
    && Get(row, "binary_sha256") != Null && Get(row, "effective_settings") != Null
    && Isolation(Get(row, "grading_isolation"))
    && Duration(Get(row, "wall_s"))
    && Get(row, "pass") == Bool(TaskSuccess(row))
  }

  predicate AlikeIn(a: Row, b: Row, field: string) { Same(Get(a, field), Get(b, field)) }

  predicate Alike(a: Row, b: Row) {
    && AlikeIn(a, b, "campaign") && AlikeIn(a, b, "variant")
    && forall f | f in COMPARABLE :: AlikeIn(a, b, f)
  }

  /** Rows of one harness share binary, settings and grading isolation. */
  predicate SameArm(a: Row, b: Row) {
    Get(a, "harness") == Get(b, "harness") ==>
      AlikeIn(a, b, "binary_sha256") && AlikeIn(a, b, "effective_settings") && AlikeIn(a, b, "grading_isolation")
  }

  predicate Named(row: Row) { Truthy(Get(row, "campaign")) && Truthy(Get(row, "variant")) }

  // Complete campaigns.

  function Keys(rows: seq<Row>): set<Key> { set row | row in rows && KeyOf(row).Some? :: KeyOf(row).value }

  predicate RowFits(row: Row, expected: set<Key>) { Sound(row) && KeyOf(row).value in expected }

  predicate PairFits(a: Row, b: Row) { Alike(a, b) && SameArm(a, b) && KeyOf(a) != KeyOf(b) }

  /** Rows that fit together, each with a different expected key. */
  ghost predicate Good(rows: seq<Row>, expected: set<Key>) {
    && (forall i {:trigger RowFits(rows[i], expected)} | 0 <= i < |rows| :: RowFits(rows[i], expected))
    && (forall i, j {:trigger PairFits(rows[i], rows[j])} | 0 <= i < j < |rows| :: PairFits(rows[i], rows[j]))
  }

  ghost predicate Complete(rows: seq<Row>, expected: set<Key>) {
    && rows != [] && Good(rows, expected) && expected <= Keys(rows)
    && forall i | 0 <= i < |rows| :: Named(rows[i])
  }

  lemma AlikeTransitive(a: Row, b: Row, c: Row)
    ensures Alike(a, b) && Alike(b, c) ==> Alike(a, c)
    ensures Alike(a, b) <==> Alike(b, a)
    ensures Alike(a, a)
  {
    if Alike(a, b) && Alike(b, c) {
      forall f | f in COMPARABLE ensures AlikeIn(a, c, f) {
        assert AlikeIn(a, b, f) && AlikeIn(b, c, f);
      }
    }
    if Alike(a, b) {
      forall f | f in COMPARABLE ensures AlikeIn(b, a, f) {
        assert AlikeIn(a, b, f);
      }
    }
    if Alike(b, a) {
      forall f | f in COMPARABLE ensures AlikeIn(a, b, f) {
        assert AlikeIn(b, a, f);
      }
    }
  }

  /** The row fits behind rows that fit together. */
  ghost predicate Joins(rows: seq<Row>, row: Row, expected: set<Key>) {
    && Sound(row) && KeyOf(row).value in expected && KeyOf(row).value !in Keys(rows)
    && (rows != [] ==> Alike(rows[0], row))
    && (forall i | 0 <= i < |rows| :: SameArm(rows[i], row))
  }

  lemma KeysOn(rows: seq<Row>, row: Row)
    ensures Keys(rows + [row]) == Keys(rows) + (if KeyOf(row).Some? then {KeyOf(row).value} else {})
  {
  }

  lemma RowOf(rows: seq<Row>, key: Key) returns (i: nat)
    requires key in Keys(rows)
    ensures i < |rows| && KeyOf(rows[i]) == Some(key)
  {
    var row :| row in rows && KeyOf(row).Some? && KeyOf(row).value == key;
    i :| 0 <= i < |rows| && rows[i] == row;
  }

  lemma KeyIsThere(rows: seq<Row>, i: nat)
    requires i < |rows| && KeyOf(rows[i]).Some?
    ensures KeyOf(rows[i]).value in Keys(rows)
  {
  }

  lemma KeyIsNew(rows: seq<Row>, key: Key)
    requires forall i | 0 <= i < |rows| :: KeyOf(rows[i]) != Some(key)
    ensures key !in Keys(rows)
  {
  }

  lemma GoodPrefix(rows: seq<Row>, row: Row, expected: set<Key>)
    requires Good(rows + [row], expected)
    ensures Good(rows, expected)
  {
    var all := rows + [row];
    forall i | 0 <= i < |rows| ensures RowFits(rows[i], expected) {
      assert RowFits(all[i], expected);
    }
    forall i, j | 0 <= i < j < |rows| ensures PairFits(rows[i], rows[j]) {
      assert PairFits(all[i], all[j]);
    }
  }

  lemma GoodJoins(rows: seq<Row>, row: Row, expected: set<Key>)
    requires Good(rows + [row], expected)
    ensures Joins(rows, row, expected)
  {
    var all, n := rows + [row], |rows|;
    assert RowFits(all[n], expected);
    forall i | 0 <= i < n ensures KeyOf(rows[i]) != KeyOf(row) && SameArm(rows[i], row) && Alike(rows[i], row) {
      assert all[i] == rows[i];
      assert PairFits(all[i], all[n]);
    }
    KeyIsNew(rows, KeyOf(row).value);
  }

  lemma JoinsGood(rows: seq<Row>, row: Row, expected: set<Key>)
    requires Good(rows, expected) && Joins(rows, row, expected)
    ensures Good(rows + [row], expected)
  {
    var all := rows + [row];
    forall i | 0 <= i < |all| ensures RowFits(all[i], expected) {
      if i < |rows| {
        assert RowFits(rows[i], expected);
      }
    }
    forall i, j | 0 <= i < j < |all| ensures PairFits(all[i], all[j]) {
      if j < |rows| {
        assert PairFits(rows[i], rows[j]);
      } else {
        assert RowFits(rows[i], expected);
        KeyIsThere(rows, i);
        if i > 0 {
          assert PairFits(rows[0], rows[i]);
          AlikeTransitive(rows[0], rows[i], row);
          AlikeTransitive(rows[i], rows[0], row);
        }
      }
    }
  }

  lemma GoodOn(rows: seq<Row>, row: Row, expected: set<Key>)
    ensures Good(rows + [row], expected) <==> Good(rows, expected) && Joins(rows, row, expected)
  {
    if Good(rows + [row], expected) {
      GoodPrefix(rows, row, expected);
      GoodJoins(rows, row, expected);
    }
    if Good(rows, expected) && Joins(rows, row, expected) {
      JoinsGood(rows, row, expected);
    }
  }

  lemma GoodFacts(rows: seq<Row>, expected: set<Key>)
    requires Good(rows, expected)
    ensures forall i | 0 <= i < |rows| :: Sound(rows[i])
    ensures forall i, j | 0 <= i < j < |rows| :: KeyOf(rows[i]) != KeyOf(rows[j])
  {
    forall i | 0 <= i < |rows| ensures Sound(rows[i]) {
      assert RowFits(rows[i], expected);
    }
    forall i, j | 0 <= i < j < |rows| ensures KeyOf(rows[i]) != KeyOf(rows[j]) {
      assert PairFits(rows[i], rows[j]);
    }
  }

  lemma {:induction false} DistinctIffCount(rows: seq<Row>)
    requires forall i | 0 <= i < |rows| :: KeyOf(rows[i]).Some?
    ensures (forall i, j | 0 <= i < j < |rows| :: KeyOf(rows[i]) != KeyOf(rows[j])) <==> |Keys(rows)| == |rows|
    ensures |Keys(rows)| <= |rows|
  {
    if rows == [] {
      assert Keys(rows) == {};
    } else {
      var n := |rows| - 1;
      var rest, key := rows[..n], KeyOf(rows[n]).value;
      DistinctIffCount(rest);
      KeysOn(rest, rows[n]);
      assert rows == rest + [rows[n]];
      if key in Keys(rest) {
        var i := RowOf(rest, key);
        assert KeyOf(rows[i]) == KeyOf(rows[n]);
        assert Keys(rows) == Keys(rest);
      } else {
        assert |Keys(rows)| == |Keys(rest)| + 1;
        forall i | 0 <= i < n ensures KeyOf(rows[i]) != KeyOf(rows[n]) {
          KeyIsThere(rest, i);
        }
      }
    }
  }

  /** A complete campaign has exactly one row for every harness, task and repetition. */
  lemma CompleteIsOneToOne(rows: seq<Row>, expected: set<Key>, key: Key)
    requires Complete(rows, expected)
    ensures |rows| == |expected|
    ensures key in expected <==> exists i :: 0 <= i < |rows| && KeyOf(rows[i]) == Some(key)
    ensures forall i, j | 0 <= i < |rows| && 0 <= j < |rows| && KeyOf(rows[i]) == Some(key) == KeyOf(rows[j]) :: i == j
  {
    GoodFacts(rows, expected);
    DistinctIffCount(rows);
    KeysAreExpected(rows, expected);
    if key in expected {
      var i := RowOf(rows, key);
    }
  }

  lemma KeysAreExpected(rows: seq<Row>, expected: set<Key>)
    requires Complete(rows, expected)
    ensures Keys(rows) == expected
  {
    forall k | k in Keys(rows) ensures k in expected {
      var i := RowOf(rows, k);
      assert RowFits(rows[i], expected);
    }
  }

  /** A form of completeness without positions. */
  ghost predicate CompleteAnyOrder(rows: seq<Row>, expected: set<Key>) {
    && rows != [] && |rows| == |expected| && Keys(rows) == expected
    && (forall row | row in rows :: Sound(row) && Named(row))
    && (forall a, b | a in rows && b in rows :: Alike(a, b) && SameArm(a, b))
  }

  lemma AnyOrderFrom(rows: seq<Row>, expected: set<Key>)
    requires Complete(rows, expected)
    ensures CompleteAnyOrder(rows, expected)
  {
    KeysAreExpected(rows, expected);
    GoodFacts(rows, expected);
    DistinctIffCount(rows);
    forall row | row in rows ensures Sound(row) && Named(row) {
      var i :| 0 <= i < |rows| && rows[i] == row;
    }
    forall a, b | a in rows && b in rows ensures Alike(a, b) && SameArm(a, b) {
      var i :| 0 <= i < |rows| && rows[i] == a;
      var j :| 0 <= j < |rows| && rows[j] == b;
      AlikeTransitive(a, b, b);
      AlikeTransitive(b, a, a);
      assert i < j ==> PairFits(rows[i], rows[j]);
      assert j < i ==> PairFits(rows[j], rows[i]);
    }
  }

  lemma OrderedFrom(rows: seq<Row>, expected: set<Key>)
    requires CompleteAnyOrder(rows, expected)
    ensures Complete(rows, expected)
  {
    forall i | 0 <= i < |rows| ensures RowFits(rows[i], expected) && Named(rows[i]) {
      assert rows[i] in rows;
      KeyIsThere(rows, i);
    }
    DistinctIffCount(rows);
    forall i, j | 0 <= i < j < |rows| ensures PairFits(rows[i], rows[j]) {
      assert rows[i] in rows && rows[j] in rows;
    }
  }

  lemma SameElements(rows: seq<Row>, other: seq<Row>, expected: set<Key>)
    requires |rows| == |other| && (forall row :: row in rows <==> row in other)
    requires CompleteAnyOrder(rows, expected)
    ensures CompleteAnyOrder(other, expected)
  {
    assert Keys(rows) == Keys(other);
  }

  /** Acceptance does not depend on the order of the rows. */
  lemma ReorderingIsIrrelevant(rows: seq<Row>, other: seq<Row>, expected: set<Key>)
    requires multiset(rows) == multiset(other)
    ensures Complete(rows, expected) <==> Complete(other, expected)
  {
    assert |multiset(rows)| == |multiset(other)|;
    forall row ensures row in rows <==> row in other {
      assert row in rows <==> row in multiset(rows);
      assert row in other <==> row in multiset(other);
    }
    if Complete(rows, expected) {
      AnyOrderFrom(rows, expected);
      SameElements(rows, other, expected);
      OrderedFrom(other, expected);
    }
    if Complete(other, expected) {
      AnyOrderFrom(other, expected);
      SameElements(other, rows, expected);
      OrderedFrom(rows, expected);
    }
  }

  lemma OneSize(rows: seq<Row>, other: seq<Row>, expected: set<Key>)
    requires Complete(rows, expected) && |other| != |rows|
    ensures !Complete(other, expected)
  {
    AnyOrderFrom(rows, expected);
    if Complete(other, expected) {
      AnyOrderFrom(other, expected);
    }
  }

  // Checking the rows.

  datatype Arm = Arm(binary: Val, settings: Val, isolation: Val)

  function ArmOf(row: Row): Arm {
    Arm(Get(row, "binary_sha256"), Get(row, "effective_settings"), Get(row, "grading_isolation"))
  }

  predicate SameArms(a: Arm, b: Arm) {
    Same(a.binary, b.binary) && Same(a.settings, b.settings) && Same(a.isolation, b.isolation)
  }

  function HarnessOf(row: Row): string
    requires KeyOf(row).Some?
  {
    KeyOf(row).value.harness
  }

  /** For each harness seen, what its first row said. */
  ghost predicate Remembers(arms: map<string, Arm>, rows: seq<Row>) {
    && (forall i | 0 <= i < |rows| && KeyOf(rows[i]).Some? :: HarnessOf(rows[i]) in arms)
    && (forall h | h in arms :: exists i :: FirstOf(rows, h, i) && ArmOf(rows[i]) == arms[h])
  }

  /** The harness has its first row here. */
  predicate FirstOf(rows: seq<Row>, harness: string, i: int) {
    && 0 <= i < |rows| && Runs(rows[i], harness)
    && forall j | 0 <= j < i :: !Runs(rows[j], harness)
  }

  predicate Runs(row: Row, harness: string) { KeyOf(row).Some? && HarnessOf(row) == harness }

  ghost predicate IsArm(row: Row, harness: string, arm: Arm) {
    KeyOf(row).Some? && HarnessOf(row) == harness && ArmOf(row) == arm
  }

  lemma RemembersOn(arms: map<string, Arm>, rows: seq<Row>, row: Row)
    requires Remembers(arms, rows)
    ensures KeyOf(row).None? ==> Remembers(arms, rows + [row])
    ensures KeyOf(row).Some? ==>
      Remembers(if HarnessOf(row) in arms then arms else arms[HarnessOf(row) := ArmOf(row)], rows + [row])
  {
    var all := rows + [row];
    forall h | h in arms ensures exists i :: FirstOf(all, h, i) && ArmOf(all[i]) == arms[h] {
      var i :| FirstOf(rows, h, i) && ArmOf(rows[i]) == arms[h];
      assert FirstOf(all, h, i) && all[i] == rows[i];
    }
    if KeyOf(row).Some? && HarnessOf(row) !in arms {
      assert forall j | 0 <= j < |rows| :: !Runs(rows[j], HarnessOf(row));
      assert FirstOf(all, HarnessOf(row), |rows|);
    }
  }

  predicate FieldFits(first: Row, row: Row, field: string) { Get(row, field) != Null && AlikeIn(first, row, field) }

  /** What checking the values of one row comes to. */
  ghost predicate Fits(row: Row, first: Row, arm: Arm) {
    Sound(row) && Alike(first, row) && SameArms(arm, ArmOf(row))
  }

  /** What each error about the values of a row says. */
  predicate Wrong(e: Error, row: Row, first: Row, arm: Arm) {
    match e
    case Schema => !Same(Get(row, "schema_version"), Int(2))
    case Mixed => !AlikeIn(first, row, "campaign") || !AlikeIn(first, row, "variant")
    case Incompatible(f) => f in COMPARABLE && (Get(first, f) == Null || !AlikeIn(first, row, f))
    case BadDuration => !Duration(Get(row, "wall_s"))
    case BadSuccess(key) => KeyOf(row) == Some(key) && Get(row, "pass") != Bool(TaskSuccess(row))
    case _ => WrongArm(e, ArmOf(row), arm)
  }

  predicate WrongArm(e: Error, found: Arm, arm: Arm) {
    match e
    case NoBinary => found.binary == Null || found.settings == Null
    case BinaryChanged => !Same(arm.binary, found.binary) || !Same(arm.settings, found.settings)
    case BadIsolation => !Isolation(found.isolation)
    case IsolationChanged => !Same(arm.isolation, found.isolation)
    case _ => false
  }

  function When(wrong: bool, e: Error): seq<Error> { if wrong then [e] else [] }

  /** Reports exactly what is wrong with the values of a row. */
  method CheckRow(row: Row, key: Key, first: Row, arm: Arm) returns (errors: seq<Error>)
    requires KeyOf(row) == Some(key)
    ensures errors == [] <==> Fits(row, first, arm)
    ensures Finds(errors, row, first, arm)
  {
    var schema := !Same(Get(row, "schema_version"), Int(2));
    var mixed := !AlikeIn(first, row, "campaign") || !AlikeIn(first, row, "variant");
    var incompatible := Compare(row, first);
    var changed := CheckArm(row, arm);
    var duration := !Duration(Get(row, "wall_s"));
    var success := Get(row, "pass") != Bool(TaskSuccess(row));
    errors := When(schema, Schema) + When(mixed, Mixed) + incompatible + changed
              + When(duration, BadDuration) + When(success, BadSuccess(key));
    forall e ensures e in errors <==> Wrong(e, row, first, arm) {
      Gathered(e, schema, mixed, duration, success, key, incompatible, changed);
      WrongByKind(e, row, key, first, arm, schema, mixed, duration, success);
    }
    NothingWrong(row, key, first, arm);
    if errors != [] {
      assert errors[0] in errors;
    }
  }

  lemma Gathered(e: Error, schema: bool, mixed: bool, duration: bool, success: bool, key: Key,
                 incompatible: seq<Error>, changed: seq<Error>)
    requires forall x | x in incompatible :: x.Incompatible?
    requires forall x | x in changed :: x.NoBinary? || x.BinaryChanged? || x.BadIsolation? || x.IsolationChanged?
    ensures e in When(schema, Schema) + When(mixed, Mixed) + incompatible + changed
                 + When(duration, BadDuration) + When(success, BadSuccess(key)) <==>
      if e.Schema? then schema else if e.Mixed? then mixed else if e.BadDuration? then duration
      else if e.BadSuccess? then success && e.key == key else e in incompatible || e in changed
  {
  }

  lemma WrongByKind(e: Error, row: Row, key: Key, first: Row, arm: Arm, schema: bool, mixed: bool, duration: bool, success: bool)
    requires KeyOf(row) == Some(key) && schema == !Same(Get(row, "schema_version"), Int(2))
    requires mixed == (!AlikeIn(first, row, "campaign") || !AlikeIn(first, row, "variant"))
    requires duration == !Duration(Get(row, "wall_s")) && success == (Get(row, "pass") != Bool(TaskSuccess(row)))
    ensures Wrong(e, row, first, arm) <==>
      if e.Schema? then schema else if e.Mixed? then mixed else if e.BadDuration? then duration
      else if e.BadSuccess? then success && e.key == key
      else if e.Incompatible? then Wrong(e, row, first, ArmOf(row)) else WrongArm(e, ArmOf(row), arm)
  {
  }

  /** A row fits if and only if there is nothing wrong with it. */
  lemma NothingWrong(row: Row, key: Key, first: Row, arm: Arm)
    requires KeyOf(row) == Some(key)
    ensures Fits(row, first, arm) <==> forall e :: !Wrong(e, row, first, arm)
  {
    if !Fits(row, first, arm) {
      var e := SomeWrong(row, key, first, arm);
    }
  }

  lemma SomeWrong(row: Row, key: Key, first: Row, arm: Arm) returns (e: Error)
    requires KeyOf(row) == Some(key) && !Fits(row, first, arm)
    ensures Wrong(e, row, first, arm)
  {
    if f :| f in COMPARABLE && !FieldFits(first, row, f) {
      return Incompatible(f);
    }
    if !Same(Get(row, "schema_version"), Int(2)) {
      return Schema;
    } else if !AlikeIn(first, row, "campaign") || !AlikeIn(first, row, "variant") {
      return Mixed;
    } else if !Duration(Get(row, "wall_s")) {
      return BadDuration;
    } else if Get(row, "pass") != Bool(TaskSuccess(row)) {
      return BadSuccess(key);
    } else if Get(row, "binary_sha256") == Null || Get(row, "effective_settings") == Null {
      return NoBinary;
    } else if !Isolation(Get(row, "grading_isolation")) {
      return BadIsolation;
    } else if !Same(arm.isolation, Get(row, "grading_isolation")) {
      return IsolationChanged;
    } else {
      return BinaryChanged;
    }
  }

  method CheckArm(row: Row, arm: Arm) returns (errors: seq<Error>)
    ensures errors == [] <==>
      && Get(row, "binary_sha256") != Null && Get(row, "effective_settings") != Null
      && Isolation(Get(row, "grading_isolation")) && SameArms(arm, ArmOf(row))
    ensures forall e :: e in errors <==> WrongArm(e, ArmOf(row), arm)
  {
    var found := ArmOf(row);
    errors := When(found.binary == Null || found.settings == Null, NoBinary);
    errors := errors + When(!Same(arm.binary, found.binary) || !Same(arm.settings, found.settings), BinaryChanged);
    errors := errors + When(!Isolation(found.isolation), BadIsolation);
    errors := errors + When(!Same(arm.isolation, found.isolation), IsolationChanged);
  }

  /** Every comparable field must be present in the first row and the same in this one. */
  method Compare(row: Row, first: Row) returns (errors: seq<Error>)
    ensures errors == [] <==> forall f | f in COMPARABLE :: FieldFits(first, row, f)
    ensures forall e :: e in errors <==> e.Incompatible? && Wrong(e, row, first, ArmOf(row))
  {
    errors := [];
    for i := 0 to |COMPARABLE|
      invariant errors == [] <==> forall j | 0 <= j < i :: FieldFits(first, row, COMPARABLE[j])
      invariant forall e :: e in errors <==> e.Incompatible? && e.field in COMPARABLE[..i] && Wrong(e, row, first, ArmOf(row))
    {
      var f := COMPARABLE[i];
      if Get(first, f) == Null || !Same(Get(row, f), Get(first, f)) {
        errors := errors + [Incompatible(f)];
      }
    }
  }

  lemma SameArmIff(a: Row, b: Row)
    requires KeyOf(a).Some? && KeyOf(b).Some?
    ensures SameArm(a, b) <==> (HarnessOf(a) == HarnessOf(b) ==> SameArms(ArmOf(a), ArmOf(b)))
  {
  }

  /** One remembered row of the harness stands for all of them. */
  lemma ArmStandsForAll(rows: seq<Row>, row: Row, expected: set<Key>, i: nat, k: nat)
    requires Good(rows, expected) && KeyOf(row).Some? && i < |rows| && k < |rows|
    requires KeyOf(rows[k]).Some? && HarnessOf(rows[k]) == HarnessOf(row) && SameArms(ArmOf(rows[k]), ArmOf(row))
    ensures SameArm(rows[i], row)
  {
    assert RowFits(rows[i], expected);
    SameArmIff(rows[i], row);
    if HarnessOf(rows[i]) == HarnessOf(row) {
      if i < k {
        SameArmIff(rows[i], rows[k]);
        assert PairFits(rows[i], rows[k]);
      } else if k < i {
        SameArmIff(rows[k], rows[i]);
        assert PairFits(rows[k], rows[i]);
      }
    }
  }

  lemma ArmKnown(rows: seq<Row>, row: Row, expected: set<Key>, arm: Arm)
    requires Good(rows, expected) && KeyOf(row).Some?
    requires exists k :: 0 <= k < |rows| && IsArm(rows[k], HarnessOf(row), arm)
    ensures (forall i | 0 <= i < |rows| :: SameArm(rows[i], row)) <==> SameArms(arm, ArmOf(row))
  {
    var k :| 0 <= k < |rows| && IsArm(rows[k], HarnessOf(row), arm);
    SameArmIff(rows[k], row);
    if SameArms(arm, ArmOf(row)) {
      forall i | 0 <= i < |rows| ensures SameArm(rows[i], row) {
        ArmStandsForAll(rows, row, expected, i, k);
      }
    }
  }

  lemma ArmChecked(rows: seq<Row>, row: Row, expected: set<Key>, arms: map<string, Arm>)
    requires Good(rows, expected) && Remembers(arms, rows) && KeyOf(row).Some?
    ensures (forall i | 0 <= i < |rows| :: SameArm(rows[i], row)) <==>
      (HarnessOf(row) in arms ==> SameArms(arms[HarnessOf(row)], ArmOf(row)))
  {
    if HarnessOf(row) in arms {
      var k :| FirstOf(rows, HarnessOf(row), k) && ArmOf(rows[k]) == arms[HarnessOf(row)];
      assert IsArm(rows[k], HarnessOf(row), arms[HarnessOf(row)]);
      ArmKnown(rows, row, expected, arms[HarnessOf(row)]);
    } else {
      forall i | 0 <= i < |rows| ensures SameArm(rows[i], row) {
        assert RowFits(rows[i], expected);
        SameArmIff(rows[i], row);
      }
    }
  }

  lemma JoinsWhenFits(rows: seq<Row>, row: Row, key: Key, expected: set<Key>, arms: map<string, Arm>)
    requires Good(rows, expected) && Remembers(arms, rows) && KeyOf(row) == Some(key)
    ensures var first := if rows == [] then row else rows[0];
            var arm := if key.harness in arms then arms[key.harness] else ArmOf(row);
      Joins(rows, row, expected) <==> Fits(row, first, arm) && key in expected && key !in Keys(rows)
  {
    ArmChecked(rows, row, expected, arms);
    AlikeTransitive(row, row, row);
  }

  ghost predicate Repeated(rows: seq<Row>, key: Key) {
    exists i, j :: 0 <= i < j < |rows| && KeyOf(rows[i]) == Some(key) == KeyOf(rows[j])
  }

  lemma RepeatedOn(rows: seq<Row>, row: Row, key: Key)
    ensures Repeated(rows + [row], key) <==> Repeated(rows, key) || (KeyOf(row) == Some(key) && key in Keys(rows))
  {
    var all, n := rows + [row], |rows|;
    if Repeated(all, key) {
      var i, j :| 0 <= i < j < |all| && KeyOf(all[i]) == Some(key) == KeyOf(all[j]);
      if j < n {
        assert KeyOf(rows[i]) == Some(key) == KeyOf(rows[j]);
      } else {
        KeyIsThere(rows, i);
      }
    }
    if Repeated(rows, key) {
      var i, j :| 0 <= i < j < |rows| && KeyOf(rows[i]) == Some(key) == KeyOf(rows[j]);
      assert KeyOf(all[i]) == Some(key) == KeyOf(all[j]);
    }
    if KeyOf(row) == Some(key) && key in Keys(rows) {
      var i := RowOf(rows, key);
      assert KeyOf(all[i]) == Some(key) == KeyOf(all[n]);
    }
  }

  lemma AllNamed(rows: seq<Row>, expected: set<Key>)
    requires rows != [] && Good(rows, expected)
    ensures Named(rows[0]) <==> forall i | 0 <= i < |rows| :: Named(rows[i])
  {
    forall i | 0 < i < |rows| && Named(rows[0]) ensures Named(rows[i]) {
      assert PairFits(rows[0], rows[i]);
    }
  }

  lemma NotJoined(rows: seq<Row>, row: Row, expected: set<Key>)
    requires KeyOf(row).None?
    ensures !Good(rows + [row], expected)
  {
    GoodOn(rows, row, expected);
  }

  lemma GoodWhenFits(rows: seq<Row>, row: Row, key: Key, expected: set<Key>, arms: map<string, Arm>)
    requires Remembers(arms, rows) && KeyOf(row) == Some(key)
    ensures var first := if rows == [] then row else rows[0];
            var arm := if key.harness in arms then arms[key.harness] else ArmOf(row);
      Good(rows + [row], expected) <==>
        Good(rows, expected) && Fits(row, first, arm) && key in expected && key !in Keys(rows)
  {
    GoodOn(rows, row, expected);
    if Good(rows, expected) {
      JoinsWhenFits(rows, row, key, expected, arms);
    }
  }

  // What each error about a row stands for.

  /** The row is wrong in this way, against the first row and the first of its harness. */
  ghost predicate WrongAt(e: Error, rows: seq<Row>, i: int) {
    && 0 <= i < |rows| && KeyOf(rows[i]).Some?
    && exists k :: FirstOf(rows, HarnessOf(rows[i]), k) && Wrong(e, rows[i], rows[0], ArmOf(rows[k]))
  }

  ghost predicate WrongSomewhere(e: Error, rows: seq<Row>) { exists i :: WrongAt(e, rows, i) }

  ghost predicate Unkeyed(rows: seq<Row>) { exists i :: 0 <= i < |rows| && KeyOf(rows[i]).None? }

  lemma WrongAtBefore(e: Error, rows: seq<Row>, row: Row, i: nat)
    requires i < |rows|
    ensures WrongAt(e, rows + [row], i) <==> WrongAt(e, rows, i)
  {
    var all := rows + [row];
    if KeyOf(rows[i]).Some? {
      var h := HarnessOf(rows[i]);
      assert Runs(rows[i], h) && all[i] == rows[i];
      if WrongAt(e, all, i) {
        var k :| FirstOf(all, h, k) && Wrong(e, all[i], all[0], ArmOf(all[k]));
        FirstBefore(rows, row, h, k, i);
      }
      if WrongAt(e, rows, i) {
        var k :| FirstOf(rows, h, k) && Wrong(e, rows[i], rows[0], ArmOf(rows[k]));
        assert FirstOf(all, h, k) && all[k] == rows[k];
      }
    }
  }

  lemma FirstBefore(rows: seq<Row>, row: Row, h: string, k: int, i: nat)
    requires FirstOf(rows + [row], h, k) && i < |rows| && Runs(rows[i], h)
    ensures FirstOf(rows, h, k) && rows[k] == (rows + [row])[k]
  {
    var all := rows + [row];
    assert all[i] == rows[i];
    forall j | 0 <= j < k ensures !Runs(rows[j], h) {
      assert !Runs(all[j], h) && all[j] == rows[j];
    }
  }

  lemma FirstIsUnique(rows: seq<Row>, h: string, i: int, j: int)
    requires FirstOf(rows, h, i) && FirstOf(rows, h, j)
    ensures i == j
  {
  }

  lemma WrongAtLast(e: Error, rows: seq<Row>, row: Row, arms: map<string, Arm>)
    requires Remembers(arms, rows) && KeyOf(row).Some?
    ensures var first := if rows == [] then row else rows[0];
            var arm := if HarnessOf(row) in arms then arms[HarnessOf(row)] else ArmOf(row);
      WrongAt(e, rows + [row], |rows|) <==> Wrong(e, row, first, arm)
  {
    var all, n, h := rows + [row], |rows|, HarnessOf(row);
    var k;
    if h in arms {
      var m :| FirstOf(rows, h, m) && ArmOf(rows[m]) == arms[h];
      k := m;
      assert FirstOf(all, h, k) && all[k] == rows[k];
    } else {
      k := n;
      assert forall j | 0 <= j < n :: !Runs(all[j], h);
      assert FirstOf(all, h, k);
    }
    forall m | FirstOf(all, h, m) ensures m == k {
      FirstIsUnique(all, h, m, k);
    }
  }

  lemma WrongSomewhereOn(e: Error, rows: seq<Row>, row: Row)
    ensures WrongSomewhere(e, rows + [row]) <==> WrongSomewhere(e, rows) || WrongAt(e, rows + [row], |rows|)
  {
    var all := rows + [row];
    forall i | 0 <= i < |rows| ensures WrongAt(e, all, i) <==> WrongAt(e, rows, i) {
      WrongAtBefore(e, rows, row, i);
    }
    if i :| WrongAt(e, all, i) {
      assert i < |rows| ==> WrongAt(e, rows, i);
    }
    if i :| WrongAt(e, rows, i) {
      assert WrongAt(e, all, i);
    }
  }

  lemma NotWrongOn(e: Error, rows: seq<Row>, row: Row)
    requires KeyOf(row).None?
    ensures WrongSomewhere(e, rows + [row]) <==> WrongSomewhere(e, rows)
  {
    WrongSomewhereOn(e, rows, row);
  }

  lemma WrongOn(e: Error, rows: seq<Row>, row: Row, arms: map<string, Arm>, first: Row, arm: Arm)
    requires Remembers(arms, rows) && KeyOf(row).Some?
    requires first == (if rows == [] then row else rows[0])
    requires arm == if HarnessOf(row) in arms then arms[HarnessOf(row)] else ArmOf(row)
    ensures WrongSomewhere(e, rows + [row]) <==> WrongSomewhere(e, rows) || Wrong(e, row, first, arm)
  {
    WrongAtLast(e, rows, row, arms);
    WrongSomewhereOn(e, rows, row);
  }

  /** What has been found wrong with one row. */
  ghost predicate Finds(found: seq<Error>, row: Row, first: Row, arm: Arm) {
    forall e :: e in found <==> Wrong(e, row, first, arm)
  }

  lemma UnkeyedOn(rows: seq<Row>, row: Row)
    ensures Unkeyed(rows + [row]) <==> Unkeyed(rows) || KeyOf(row).None?
  {
    var all := rows + [row];
    if i :| 0 <= i < |rows| && KeyOf(rows[i]).None? {
      assert all[i] == rows[i];
    }
    assert all[|rows|] == row;
  }

  /** What each error stands for; `missing` are the expected keys already known to have no row. */
  ghost predicate Justified(e: Error, rows: seq<Row>, expected: set<Key>, named: bool, missing: set<Key>) {
    match e
    case EmptyCampaign => false
    case NotObjects => false
    case MissingIdentity => !named
    case InvalidKey => Unkeyed(rows)
    case Duplicate(key) => Repeated(rows, key)
    case Unexpected(key) => key in Keys(rows) && key !in expected
    case Missing(key) => key in missing
    case _ => WrongSomewhere(e, rows)
  }

  /** Every error has its cause, and every cause is reported. */
  ghost predicate Reported(errors: seq<Error>, rows: seq<Row>, expected: set<Key>, named: bool, missing: set<Key>) {
    forall e :: e in errors <==> Justified(e, rows, expected, named, missing)
  }

  lemma JustifiedInvalid(e: Error, rows: seq<Row>, row: Row, expected: set<Key>, named: bool)
    requires KeyOf(row).None?
    ensures Justified(e, rows + [row], expected, named, {}) <==>
      Justified(e, rows, expected, named, {}) || e == InvalidKey
  {
    match e
    case InvalidKey => UnkeyedOn(rows, row);
    case Duplicate(key) => RepeatedOn(rows, row, key);
    case Unexpected(key) => KeysOn(rows, row);
    case _ => NotWrongOn(e, rows, row);
  }

  lemma JustifiedValid(e: Error, rows: seq<Row>, row: Row, expected: set<Key>, named: bool, arms: map<string, Arm>,
                       key: Key, first: Row, arm: Arm)
    requires Remembers(arms, rows) && KeyOf(row) == Some(key)
    requires first == (if rows == [] then row else rows[0])
    requires arm == if key.harness in arms then arms[key.harness] else ArmOf(row)
    ensures Justified(e, rows + [row], expected, named, {}) <==>
      || Justified(e, rows, expected, named, {}) || Wrong(e, row, first, arm)
      || (e == Duplicate(key) && key in Keys(rows)) || (e == Unexpected(key) && key !in expected)
  {
    match e
    case InvalidKey => UnkeyedOn(rows, row);
    case Duplicate(k) => RepeatedOn(rows, row, k);
    case Unexpected(_) => KeysOn(rows, row);
    case _ => WrongOn(e, rows, row, arms, first, arm);
  }

  lemma ReportedInvalid(errors: seq<Error>, rows: seq<Row>, row: Row, expected: set<Key>, named: bool)
    requires Reported(errors, rows, expected, named, {}) && KeyOf(row).None?
    ensures Reported(errors + [InvalidKey], rows + [row], expected, named, {})
  {
    forall e ensures e in errors + [InvalidKey] <==> Justified(e, rows + [row], expected, named, {}) {
      JustifiedInvalid(e, rows, row, expected, named);
      assert e in errors <==> Justified(e, rows, expected, named, {});
    }
  }

  /** The errors about a key. */
  ghost predicate AboutKey(about: seq<Error>, rows: seq<Row>, expected: set<Key>, key: Key) {
    forall e :: e in about <==> (e == Duplicate(key) && key in Keys(rows)) || (e == Unexpected(key) && key !in expected)
  }

  lemma ReportedValid(errors: seq<Error>, rows: seq<Row>, row: Row, expected: set<Key>, named: bool,
                      arms: map<string, Arm>, key: Key, first: Row, arm: Arm, about: seq<Error>, found: seq<Error>)
    requires Reported(errors, rows, expected, named, {}) && Remembers(arms, rows) && KeyOf(row) == Some(key)
    requires first == (if rows == [] then row else rows[0])
    requires arm == if key.harness in arms then arms[key.harness] else ArmOf(row)
    requires AboutKey(about, rows, expected, key) && Finds(found, row, first, arm)
    ensures Reported(errors + about + found, rows + [row], expected, named, {})
  {
    forall e ensures e in errors + about + found <==> Justified(e, rows + [row], expected, named, {}) {
      JustifiedValid(e, rows, row, expected, named, arms, key, first, arm);
      assert e in errors <==> Justified(e, rows, expected, named, {});
      assert e in about <==> (e == Duplicate(key) && key in Keys(rows)) || (e == Unexpected(key) && key !in expected);
      assert e in found <==> Wrong(e, row, first, arm);
    }
  }

  /** What the scan has established after some rows. */
  ghost predicate Scanned(errors: seq<Error>, seen: set<Key>, arms: map<string, Arm>, rows: seq<Row>,
                          expected: set<Key>, named: bool)
  {
    && seen == Keys(rows) && Remembers(arms, rows) && Reported(errors, rows, expected, named, {})
    && (errors == [] <==> named && Good(rows, expected))
  }

  lemma ScannedInvalid(errors: seq<Error>, seen: set<Key>, arms: map<string, Arm>, rows: seq<Row>,
                       expected: set<Key>, named: bool, row: Row)
    requires Scanned(errors, seen, arms, rows, expected, named) && KeyOf(row).None?
    ensures Scanned(errors + [InvalidKey], seen, arms, rows + [row], expected, named)
  {
    KeysOn(rows, row);
    RemembersOn(arms, rows, row);
    NotJoined(rows, row, expected);
    ReportedInvalid(errors, rows, row, expected, named);
  }

  lemma ScannedValid(errors: seq<Error>, seen: set<Key>, arms: map<string, Arm>, rows: seq<Row>,
                     expected: set<Key>, named: bool, row: Row, key: Key, first: Row, arm: Arm,
                     about: seq<Error>, found: seq<Error>)
    requires Scanned(errors, seen, arms, rows, expected, named) && KeyOf(row) == Some(key)
    requires first == (if rows == [] then row else rows[0])
    requires arm == if key.harness in arms then arms[key.harness] else ArmOf(row)
    requires (found == [] <==> Fits(row, first, arm)) && Finds(found, row, first, arm)
    requires about == When(key in seen, Duplicate(key)) + When(key !in expected, Unexpected(key))
    ensures Scanned(errors + about + found, seen + {key},
                    if key.harness in arms then arms else arms[key.harness := ArmOf(row)], rows + [row], expected, named)
  {
    KeysOn(rows, row);
    RemembersOn(arms, rows, row);
    GoodWhenFits(rows, row, key, expected, arms);
    ReportedValid(errors, rows, row, expected, named, arms, key, first, arm, about, found);
  }

  lemma ScannedNothing(expected: set<Key>, named: bool, errors: seq<Error>)
    requires errors == When(!named, MissingIdentity)
    ensures Scanned(errors, {}, map[], [], expected, named)
  {
  }

  /** One row of the scan. */
  method ScanRow(row: Row, first: Row, expected: set<Key>, errors: seq<Error>, seen: set<Key>, arms: map<string, Arm>,
                 ghost rows: seq<Row>, ghost named: bool)
    returns (errors': seq<Error>, seen': set<Key>, arms': map<string, Arm>)
    requires Scanned(errors, seen, arms, rows, expected, named) && first == (if rows == [] then row else rows[0])
    ensures Scanned(errors', seen', arms', rows + [row], expected, named)
  {
    arms' := arms;
    if KeyOf(row).None? {
      ScannedInvalid(errors, seen, arms, rows, expected, named, row);
      return errors + [InvalidKey], seen, arms;
    }
    var key := KeyOf(row).value;
    if key.harness !in arms {
      arms' := arms[key.harness := ArmOf(row)];
    }
    var about := When(key in seen, Duplicate(key)) + When(key !in expected, Unexpected(key));
    var found := CheckRow(row, key, first, arms'[key.harness]);
    ScannedValid(errors, seen, arms, rows, expected, named, row, key, first, arms'[key.harness], about, found);
    return errors + about + found, seen + {key}, arms';
  }

  method Scan(rows: seq<Row>, expected: set<Key>) returns (errors: seq<Error>, seen: set<Key>)
    requires rows != []
    ensures seen == Keys(rows) && Reported(errors, rows, expected, Named(rows[0]), {})
    ensures errors == [] <==> Named(rows[0]) && Good(rows, expected)
  {
    var arms: map<string, Arm> := map[];
    var named := Named(rows[0]);
    errors, seen := When(!named, MissingIdentity), {};
    ScannedNothing(expected, named, errors);
    ghost var done: seq<Row> := [];
    for n := 0 to |rows|
      invariant done == rows[..n]
      invariant Scanned(errors, seen, arms, done, expected, named)
    {
      errors, seen, arms := ScanRow(rows[n], rows[0], expected, errors, seen, arms, done, named);
      done := done + [rows[n]];
    }
    assert done == rows;
  }

  // Checking a whole campaign.

  datatype Item = Other | Object(row: Row)

  function Rows(items: seq<Item>): seq<Row> {
    if items == [] then []
    else Rows(items[..|items| - 1]) + (if items[|items| - 1].Object? then [items[|items| - 1].row] else [])
  }

  predicate AllObjects(items: seq<Item>) { forall i | 0 <= i < |items| :: items[i].Object? }

  /** The arms a campaign is expected to have: those in its rows, and always the standard pair. */
  function Arms(rows: seq<Row>): set<string> {
    (set row | row in rows && Get(row, "harness").Text? :: Get(row, "harness").s) + {"davinci", "codex"}
  }

  function ExpectedKeys(rows: seq<Row>, tasks: seq<string>, reps: seq<int>, harnesses: Option<seq<string>>): set<Key> {
    var arms := if harnesses.Some? then set h | h in harnesses.value else Arms(rows);
    set h, t, r | h in arms && t in tasks && r in reps :: Key(h, t, r)
  }

  /** What an empty list of errors stands for. */
  ghost predicate Passes(items: seq<Item>, tasks: seq<string>, reps: seq<int>, harnesses: Option<seq<string>>) {
    && items != [] && AllObjects(items)
    && Complete(Rows(items), ExpectedKeys(Rows(items), tasks, reps, harnesses))
  }

  lemma {:induction false} RowsOfObjects(items: seq<Item>)
    requires AllObjects(items)
    ensures |Rows(items)| == |items|
    ensures forall i | 0 <= i < |items| :: Rows(items)[i] == items[i].row
  {
    if items != [] {
      RowsOfObjects(items[..|items| - 1]);
    }
  }

  lemma RowsNonempty(items: seq<Item>)
    requires items != [] && AllObjects(items)
    ensures Rows(items) != []
  {
  }

  lemma CompleteIff(rows: seq<Row>, expected: set<Key>)
    requires rows != []
    ensures Complete(rows, expected) <==> Named(rows[0]) && Good(rows, expected) && expected - Keys(rows) == {}
  {
    if Good(rows, expected) {
      AllNamed(rows, expected);
    }
    if expected - Keys(rows) == {} {
      forall k | k in expected ensures k in Keys(rows) {
        assert k !in expected - Keys(rows);
      }
    }
  }

  /** What is reported of a campaign: each error exactly if there is a cause for it. */
  ghost predicate Reports(e: Error, items: seq<Item>, tasks: seq<string>, reps: seq<int>, harnesses: Option<seq<string>>) {
    if items == [] then e == EmptyCampaign
    else if !AllObjects(items) then e == NotObjects
    else
      var rows, expected := Rows(items), ExpectedKeys(Rows(items), tasks, reps, harnesses);
      rows != [] && Justified(e, rows, expected, Named(rows[0]), expected - Keys(rows))
  }

  /** The list of errors is empty exactly for a complete campaign, and it says all that is wrong with any other. */
  method IntegrityErrors(items: seq<Item>, tasks: seq<string>, reps: seq<int>, harnesses: Option<seq<string>>)
    returns (errors: seq<Error>)
    ensures forall e :: e in errors <==> Reports(e, items, tasks, reps, harnesses)
    ensures errors == [] <==> Passes(items, tasks, reps, harnesses)
  {
    if items == [] {
      return [EmptyCampaign];
    }
    if !AllObjects(items) {
      return [NotObjects];
    }
    var rows := Rows(items);
    RowsNonempty(items);
    ghost var named := Named(rows[0]);
    var expected := ExpectedKeys(rows, tasks, reps, harnesses);
    var seen;
    errors, seen := Scan(rows, expected);
    CompleteIff(rows, expected);
    ghost var found := errors;
    var rest := expected - seen;
    while rest != {}
      invariant rest <= expected - seen
      invariant Reported(errors, rows, expected, named, expected - seen - rest)
      invariant errors == [] <==> found == [] && rest == expected - seen
    {
      ghost var some := MemberOf(rest);
      var key :| key in rest;
      ReportedMissing(errors, rows, expected, named, expected - seen - rest, key, expected - seen - (rest - {key}));
      errors := errors + [Missing(key)];
      rest := rest - {key};
    }
    assert expected - seen - rest == expected - Keys(rows);
  }

  lemma ReportedMissing(errors: seq<Error>, rows: seq<Row>, expected: set<Key>, named: bool, missing: set<Key>,
                        key: Key, all: set<Key>)
    requires Reported(errors, rows, expected, named, missing)
    requires all == missing + {key}
    ensures Reported(errors + [Missing(key)], rows, expected, named, all)
  {
    forall e ensures e in errors + [Missing(key)] <==> Justified(e, rows, expected, named, all) {
      assert e in errors <==> Justified(e, rows, expected, named, missing);
    }
  }
}
