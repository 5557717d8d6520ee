/**
 The machine-wide lock file of scripts/bench/runner.py: the launch record that a campaign
 keeps in it, what a later campaign reads back, and every crash point of overwriting it.
*/
module LaunchRecord {
  import opened Text
  import opened Wrappers

  /**
   One launch that was intended: `container` is the engine and the container name, and the create
   ID file of the launch stands beside `workspace`.
  */
  datatype Entry = Entry(id: string, kind: string, container: Option<seq<string>>, workspace: string)

  /**
   A decoded record. `pid` is None when the field is not an integer, `inFlight` is None when
   it is not a list, and a list item is None when it is not an object.
  */
  datatype Record = Record(schema: int, pid: Option<int>, status: string,
                           inFlight: Option<seq<Option<Entry>>>)

  /** The record of an owner with nothing launched, with one launch, and of one that finished. */
  function Active(pid: int): Record { Record(1, Some(pid), "active", Some([])) }

  function Intent(pid: int, e: Entry): Record { Record(1, Some(pid), "active", Some([Some(e)])) }

  function Finished(pid: int): Record { Record(1, Some(pid), "clean", Some([])) }

  /** The token of the first launch in flight. */
  function InFlightId(r: Record): Option<string> {
    match r.inFlight
    case Some(items) => if items != [] && items[0].Some? then Some(items[0].value.id) else None
    case None => None
  }

  /**
   JSON is a parameter: `decode` is None for text that is not a JSON object. Nothing is assumed
   about the result of decoding text that `encode` did not produce.
  */
  datatype Codec = Codec(encode: Record -> string, decode: string -> Option<Record>) {
    ghost predicate Valid() {
      forall r: Record :: Framed(encode(r)) && decode(encode(r)) == Some(r)
    }
  }

  /** An encoded object starts and ends with a brace. */
  predicate Framed(s: string) {
    2 <= |s| && s[0] == '{' && s[|s| - 1] == '}'
  }

  function Spaces(n: nat): (s: string)
    ensures |s| == n && forall i | 0 <= i < n :: s[i] == ' '
  {
    seq(n, _ => ' ')
  }

  /** `data.ljust(previous)`: shorter data is padded so that the overwrite covers the old text. */
  function Padded(data: string, previous: nat): string {
    if |data| < previous then data + Spaces(previous - |data|) else data
  }

  /** `prior` when its first `k` characters have been replaced by those of `text`. */
  function Covered(prior: string, text: string, k: nat): string
    requires k <= |text|
  {
    text[..k] + (if k < |prior| then prior[k..] else "")
  }

  lemma CoverOneMore(prior: string, text: string, k: nat)
    requires k < |text|
    ensures var c := Covered(prior, text, k);
      Covered(prior, text, k + 1) == if k < |c| then c[k := text[k]] else c + [text[k]]
  {
    var c := Covered(prior, text, k);
    assert text[..k + 1] == text[..k] + [text[k]];
    if k < |prior| {
      assert |c| > k;
      assert Covered(prior, text, k + 1) == c[k := text[k]];
    } else {
      assert |c| == k;
    }
  }

  /** The file at the k-th crash point of overwriting `prior` with the padded data. */
  function Overwritten(prior: string, data: string, k: nat): string
    requires k <= |Padded(data, |prior|)|
  {
    Covered(prior, Padded(data, |prior|), k)
  }

  lemma {:induction false} StripPadding(data: string, n: nat)
    requires Framed(data)
    ensures Strip(data + Spaces(n)) == data
  {
    var s := data + Spaces(n);
    assert s[0] == '{';
    assert TrimLeft(s) == s;
    if n == 0 {
      assert s == data;
    } else {
      assert s[..|s| - 1] == data + Spaces(n - 1);
      StripPadding(data, n - 1);
      assert (data + Spaces(n - 1))[0] == '{';
    }
  }

  /**
   Every crash point of `persist`. A file that held text never becomes empty, so it never reads
   as a fresh machine; when the overwrite is complete the stripped text is exactly the new
   record; and shortening it then leaves exactly the new record, whatever the old length was.
  */
  lemma {:induction false} PersistCrashPoints(prior: string, data: string, k: nat)
    requires Framed(data) && k <= |Padded(data, |prior|)|
    ensures prior != "" || 0 < k ==> Overwritten(prior, data, k) != ""
    ensures 0 < k ==> Strip(Overwritten(prior, data, k)) != ""
    ensures k == |Padded(data, |prior|)| ==> Strip(Overwritten(prior, data, k)) == data
    ensures k == |Padded(data, |prior|)| ==> Overwritten(prior, data, k)[..|data|] == data
    ensures |Overwritten(prior, data, k)| >= |prior|
  {
    var padded := Padded(data, |prior|);
    var file := Overwritten(prior, data, k);
    if 0 < k {
      assert file[0] == '{';
      assert TrimLeft(file) == file;
      TrimRightKeepsHead(file);
    }
    if k == |padded| {
      assert file == padded;
      var n := |padded| - |data|;
      assert padded == data + Spaces(n);
      StripPadding(data, n);
    }
  }

  /** The exclusively locked file; writes replace characters in place and may be cut short. */
  class LockFile {
    var content: string

    constructor (content: string)
      ensures this.content == content
    {
      this.content := content;
    }

    /** Overwrites from the start of the file, one character at a time. */
    method Write(text: string)
      modifies this
      ensures content == Covered(old(content), text, |text|)
    {
      var k := 0;
      while k < |text|
        invariant 0 <= k <= |text|
        invariant content == Covered(old(content), text, k)
      {
        CoverOneMore(old(content), text, k);
        content := if k < |content| then content[k := text[k]] else content + [text[k]];
        k := k + 1;
      }
    }

    method Truncate(n: nat)
      requires n <= |content|
      modifies this
      ensures content == old(content)[..n]
    {
      content := content[..n];
    }
  }

  /** What a campaign is told when its owner refuses a step. */
  datatype OwnerError = UnresolvedCleanup | OwnershipChanged | NothingInFlight

  /** The campaign's owner: `record` is kept in memory and mirrored into `lock`. */
  class CampaignOwner {
    const codec: Codec
    const lock: LockFile
    var record: Record

    ghost predicate Valid()
      reads this
    {
      codec.Valid() && record.inFlight.Some?
    }

    /** The file holds exactly the record in memory. */
    ghost predicate Synced()
      reads this, lock
    {
      lock.content == codec.encode(record)
    }

    constructor (codec: Codec, lock: LockFile, pid: int)
      requires codec.Valid()
      modifies lock
      ensures this.codec == codec && this.lock == lock
      ensures Valid() && Synced() && record == Active(pid)
    {
      this.codec := codec;
      this.lock := lock;
      this.record := Active(pid);
      new;
      Persist();
    }

    method Persist()
      requires Valid()
      modifies lock
      ensures Valid() && Synced()
    {
      var data := codec.encode(record);
      var previous := |lock.content|;
      ghost var prior := lock.content;
      lock.Write(Padded(data, previous));
      PersistCrashPoints(prior, data, |Padded(data, previous)|);
      assert lock.content == Overwritten(prior, data, |Padded(data, previous)|);
      lock.Truncate(|data|);
    }

    /** Persists the intent to launch before anything is launched; refuses over an earlier one. */
    method Begin(e: Entry) returns (r: Result<string, OwnerError>)
      requires Valid() && Synced()
      modifies this, lock
      ensures Valid() && Synced()
      ensures r == if old(record).inFlight == Some([]) then Ok(e.id) else Err(UnresolvedCleanup)
      ensures record == if r.Ok? then old(record).(inFlight := Some([Some(e)])) else old(record)
    {
      if record.inFlight.value != [] {
        return Err(UnresolvedCleanup);
      }
      record := record.(inFlight := Some([Some(e)]));
      Persist();
      return Ok(e.id);
    }

    /** Forgets a launch whose cleanup was proven; refuses a token that is not the one in flight. */
    method Complete(token: string) returns (r: Result<(), OwnerError>)
      requires Valid() && Synced()
      modifies this, lock
      ensures Valid() && Synced()
      ensures r.Ok? <==> InFlightId(old(record)) == Some(token)
      ensures r.Err? ==> r == Err(if InFlightId(old(record)).None? then NothingInFlight else OwnershipChanged)
      ensures record == if r.Ok? then old(record).(inFlight := Some([])) else old(record)
    {
      var items := record.inFlight.value;
      if items == [] || items[0].None? {
        return Err(NothingInFlight);
      }
      if items[0].value.id != token {
        return Err(OwnershipChanged);
      }
      record := record.(inFlight := Some([]));
      Persist();
      return Ok(());
    }

    /** Marks the record clean when nothing is in flight; otherwise leaves it as evidence. */
    method Finish()
      requires Valid() && Synced()
      modifies this, lock
      ensures Valid() && Synced()
      ensures record == if old(record).inFlight == Some([])
                        then old(record).(status := "clean") else old(record)
    {
      if record.inFlight.value == [] {
        record := record.(status := "clean");
        Persist();
      }
    }
  }
}
