/** Publishing a version tag (scripts/release_identity.py, `publish_tag`). */
module TagPublishing {
  // The store creates a ref at most once. Any number of publishers run at the same time, others may
  // create refs too, and any call may fail, be denied, or take effect although its answer is lost.

  import opened Wrappers

  type Tag = string
  type Sha = int
  type Id = int

  datatype Ref = Annotated(sha: Sha) | Lightweight(target: Sha)

  datatype Target = Commit(sha: Sha) | Other

  datatype TagObject = TagObject(tag: Tag, target: Target)

  datatype Outcome = Created | Exists

  datatype Error = InvalidProof | NotIdentified | CallFailed

  /** What a publisher does next. `again` marks the lookup after a lost race. */
  datatype Pc = Reading(again: bool) | Checking(ref: Ref) | Tagging | Posting(sha: Sha) | Done(outcome: Outcome) | Failed

  datatype Publisher = Publisher(tag: Tag, commit: Sha, pc: Pc)

  /** `owners` records which publisher's call created a ref. */
  datatype World = World(refs: map<Tag, Ref>, objects: map<Sha, TagObject>,
                         pubs: map<Id, Publisher>, owners: map<Tag, Id>)

  /** How the service treats one call: denied is "not found" for a lookup and 422 for a creation. */
  datatype Reply = Answered | Denied | Lost | Down

  function Mine(p: Publisher): TagObject { TagObject(p.tag, Commit(p.commit)) }

  /** The ref is an annotated tag of exactly this commit. */
  ghost predicate Identifies(w: World, tag: Tag, commit: Sha) {
    && tag in w.refs && w.refs[tag].Annotated?
    && w.refs[tag].sha in w.objects && w.objects[w.refs[tag].sha] == TagObject(tag, Commit(commit))
  }

  ghost function Moved(w: World, id: Id, pc: Pc): World
    requires id in w.pubs
  {
    w.(pubs := w.pubs[id := w.pubs[id].(pc := pc)])
  }

  /** One call of one publisher. `sha` is what the service would name a new object. */
  ghost function Next(w: World, id: Id, reply: Reply, sha: Sha): World
    requires id in w.pubs
  {
    var p := w.pubs[id];
    match p.pc
    case Reading(again) =>
      if reply.Lost? || reply.Down? then Moved(w, id, Failed)
      else if reply.Answered? && p.tag in w.refs then Moved(w, id, Checking(w.refs[p.tag]))
      else Moved(w, id, if again then Failed else Tagging)
    case Checking(ref) =>
      if ref.Annotated? && reply.Answered? && ref.sha in w.objects && w.objects[ref.sha] == Mine(p)
      then Moved(w, id, Done(Exists))
      else Moved(w, id, Failed)
    case Tagging =>
      if reply.Denied? || reply.Down? || (sha in w.objects && w.objects[sha] != Mine(p)) then Moved(w, id, Failed)
      else Moved(w.(objects := w.objects[sha := Mine(p)]), id, if reply.Answered? then Posting(sha) else Failed)
    case Posting(s) =>
      if reply.Down? then Moved(w, id, Failed)
      else if reply.Denied? then Moved(w, id, Reading(true))
      else if p.tag in w.refs then Moved(w, id, if reply.Answered? then Reading(true) else Failed)
      else Moved(w.(refs := w.refs[p.tag := Annotated(s)], owners := w.owners[p.tag := id]), id,
                 if reply.Answered? then Done(Created) else Failed)
    case Done(_) => w
    case Failed => w
  }

  ghost predicate PublisherStep(w: World, w': World) {
    exists id, reply, sha :: id in w.pubs && w' == Next(w, id, reply, sha)
  }

  function WithRef(w: World, tag: Tag, ref: Ref): World { w.(refs := w.refs[tag := ref]) }

  function WithObject(w: World, sha: Sha, o: TagObject): World { w.(objects := w.objects[sha := o]) }

  /** Somebody else creates a ref or an object. Nobody can change one that exists. */
  ghost predicate ForeignStep(w: World, w': World) {
    || (exists tag, ref | tag !in w.refs :: w' == WithRef(w, tag, ref))
    || (exists sha, o | sha !in w.objects :: w' == WithObject(w, sha, o))
  }

  ghost predicate Step(w: World, w': World) { PublisherStep(w, w') || ForeignStep(w, w') }

  ghost predicate IsRun(run: seq<World>) {
    run != [] && forall i | 0 <= i < |run| - 1 :: Step(run[i], run[i + 1])
  }

  ghost predicate Initial(w: World) {
    w.owners == map[] && forall id | id in w.pubs :: w.pubs[id].pc == Reading(false)
  }

  ghost predicate PublisherKept(w: World, id: Id)
    requires id in w.pubs
  {
    var p := w.pubs[id];
    match p.pc
    case Reading(_) => true
    case Checking(ref) => p.tag in w.refs && w.refs[p.tag] == ref
    case Tagging => true
    case Posting(s) => s in w.objects && w.objects[s] == Mine(p)
    case Done(outcome) =>
      Identifies(w, p.tag, p.commit) && (outcome.Created? ==> p.tag in w.owners && w.owners[p.tag] == id)
    case Failed => true
  }

  ghost predicate Inv(w: World) {
    w.owners.Keys <= w.refs.Keys && forall id {:trigger PublisherKept(w, id)} | id in w.pubs :: PublisherKept(w, id)
  }

  ghost predicate Keeps<K, V>(m: map<K, V>, m': map<K, V>) {
    m.Keys <= m'.Keys && forall k | k in m :: m'[k] == m[k]
  }

  /** Refs, objects and owners only grow, and a publisher that is done stays done. */
  ghost predicate Grows(w: World, w': World) {
    && Keeps(w.refs, w'.refs) && Keeps(w.objects, w'.objects) && Keeps(w.owners, w'.owners)
    && w'.pubs.Keys == w.pubs.Keys
    && (forall id | id in w.pubs :: w'.pubs[id].tag == w.pubs[id].tag && w'.pubs[id].commit == w.pubs[id].commit)
    && (forall id | id in w.pubs && w.pubs[id].pc.Done? :: w'.pubs[id] == w.pubs[id])
  }

  lemma NextStores(w: World, id: Id, reply: Reply, sha: Sha)
    requires w.owners.Keys <= w.refs.Keys && id in w.pubs
    ensures var w' := Next(w, id, reply, sha);
      && Keeps(w.refs, w'.refs) && Keeps(w.objects, w'.objects) && Keeps(w.owners, w'.owners)
      && w'.owners.Keys <= w'.refs.Keys
  {
  }

  lemma NextPubs(w: World, id: Id, reply: Reply, sha: Sha)
    requires id in w.pubs
    ensures var w' := Next(w, id, reply, sha);
      && w'.pubs == w.pubs[id := w'.pubs[id]]
      && w'.pubs[id] == w.pubs[id].(pc := w'.pubs[id].pc)
      && (w.pubs[id].pc.Done? ==> w'.pubs[id] == w.pubs[id])
  {
  }

  lemma StepGrows(w: World, w': World)
    requires w.owners.Keys <= w.refs.Keys && Step(w, w')
    ensures Grows(w, w') && w'.owners.Keys <= w'.refs.Keys
  {
    if PublisherStep(w, w') {
      var id, reply, sha :| id in w.pubs && w' == Next(w, id, reply, sha);
      NextStores(w, id, reply, sha);
      NextPubs(w, id, reply, sha);
    }
  }

  lemma GrowthKeepsPublisher(w: World, w': World, id: Id)
    requires Grows(w, w') && id in w.pubs && PublisherKept(w, id) && w'.pubs[id] == w.pubs[id]
    ensures PublisherKept(w', id)
  {
  }

  lemma NextKept(w: World, id: Id, reply: Reply, sha: Sha)
    requires id in w.pubs && PublisherKept(w, id)
    ensures PublisherKept(Next(w, id, reply, sha), id)
  {
  }

  lemma StepKeepsInv(w: World, w': World)
    requires Inv(w) && Step(w, w')
    ensures Inv(w')
  {
    StepGrows(w, w');
    if PublisherStep(w, w') {
      var id, reply, sha :| id in w.pubs && w' == Next(w, id, reply, sha);
      NextPubs(w, id, reply, sha);
      forall x | x in w'.pubs ensures PublisherKept(w', x) {
        if x == id {
          NextKept(w, id, reply, sha);
        } else {
          GrowthKeepsPublisher(w, w', x);
        }
      }
    } else {
      forall x | x in w'.pubs ensures PublisherKept(w', x) {
        GrowthKeepsPublisher(w, w', x);
      }
    }
  }

  lemma {:induction false} RunKeepsInv(run: seq<World>, i: nat)
    requires IsRun(run) && i < |run| && Inv(run[0])
    ensures Inv(run[i])
  {
    if i > 0 {
      RunKeepsInv(run, i - 1);
      assert Step(run[i - 1], run[i - 1 + 1]);
      StepKeepsInv(run[i - 1], run[i]);
    }
  }

  /** A tag that was ever created is never moved, in no run. */
  lemma {:induction false} TagsNeverMove(run: seq<World>, i: nat, j: nat)
    requires IsRun(run) && i <= j < |run| && Inv(run[0])
    ensures Grows(run[i], run[j])
    decreases j
  {
    if i < j {
      TagsNeverMove(run, i, j - 1);
      RunKeepsInv(run, j - 1);
      assert Step(run[j - 1], run[j - 1 + 1]);
      StepGrows(run[j - 1], run[j]);
    }
  }

  lemma DoneStaysDone(run: seq<World>, i: nat, j: nat, p: Id)
    requires IsRun(run) && Inv(run[0]) && i <= j < |run|
    requires p in run[i].pubs && run[i].pubs[p].pc.Done?
    ensures p in run[j].pubs && run[j].pubs[p] == run[i].pubs[p] && PublisherKept(run[j], p)
  {
    TagsNeverMove(run, i, j);
    RunKeepsInv(run, j);
  }

  /** At most one publisher of a tag is ever told that it created the tag. */
  lemma OnlyOneCreates(run: seq<World>, i: nat, j: nat, p: Id, q: Id)
    requires IsRun(run) && Initial(run[0]) && i <= j < |run|
    requires p in run[i].pubs && run[i].pubs[p].pc == Done(Created)
    requires q in run[j].pubs && run[j].pubs[q].pc == Done(Created)
    requires run[i].pubs[p].tag == run[j].pubs[q].tag
    ensures p == q
  {
    DoneStaysDone(run, i, j, p);
    DoneStaysDone(run, j, j, q);
  }

  /** Publishers of one tag that succeed, at whatever time, succeed with the same commit. */
  lemma OneCommitPerTag(run: seq<World>, i: nat, j: nat, p: Id, q: Id)
    requires IsRun(run) && Initial(run[0]) && i <= j < |run|
    requires p in run[i].pubs && run[i].pubs[p].pc.Done?
    requires q in run[j].pubs && run[j].pubs[q].pc.Done?
    requires run[i].pubs[p].tag == run[j].pubs[q].tag
    ensures run[i].pubs[p].commit == run[j].pubs[q].commit
  {
    DoneStaysDone(run, i, j, p);
    DoneStaysDone(run, j, j, q);
  }

  /** What a successful publisher found in the store stays there for the rest of the run. */
  lemma SuccessLasts(run: seq<World>, i: nat, j: nat, p: Id)
    requires IsRun(run) && Initial(run[0]) && i <= j < |run|
    requires p in run[i].pubs && run[i].pubs[p].pc.Done?
    ensures Identifies(run[i], run[i].pubs[p].tag, run[i].pubs[p].commit)
    ensures Identifies(run[j], run[i].pubs[p].tag, run[i].pubs[p].commit)
    ensures run[j].refs[run[i].pubs[p].tag] == run[i].refs[run[i].pubs[p].tag]
  {
    DoneStaysDone(run, i, i, p);
    TagsNeverMove(run, i, j);
  }

  // One publisher's code.

  ghost predicate Trace(run: seq<World>, w: World, w': World) {
    IsRun(run) && run[0] == w && run[|run| - 1] == w'
  }

  ghost predicate Leads(w: World, w': World) { exists run :: Trace(run, w, w') }

  lemma LeadsOne(w: World, w': World)
    requires Step(w, w')
    ensures Leads(w, w')
  {
    assert Trace([w, w'], w, w');
  }

  lemma LeadsOn(w: World, v: World, w': World)
    requires Leads(w, v) && Leads(v, w')
    ensures Leads(w, w')
  {
    var a :| Trace(a, w, v);
    var b :| Trace(b, v, w');
    var c := a + b[1..];
    forall i | 0 <= i < |c| - 1 ensures Step(c[i], c[i + 1]) {
      if i < |a| - 1 {
        assert Step(a[i], a[i + 1]);
      } else {
        assert Step(b[i - |a| + 1], b[i - |a| + 1 + 1]);
      }
    }
    assert Trace(c, w, w');
  }

  lemma LeadsKeepsInv(w: World, w': World)
    requires Inv(w) && Leads(w, w')
    ensures Inv(w') && Grows(w, w')
  {
    var run :| Trace(run, w, w');
    RunKeepsInv(run, |run| - 1);
    TagsNeverMove(run, 0, |run| - 1);
  }

  lemma TakeStep(w: World, id: Id, reply: Reply, sha: Sha)
    requires Inv(w) && id in w.pubs
    ensures var w' := Next(w, id, reply, sha);
      Inv(w') && Leads(w, w') && Grows(w, w')
  {
    var w' := Next(w, id, reply, sha);
    assert PublisherStep(w, w');
    StepKeepsInv(w, w');
    StepGrows(w, w');
    LeadsOne(w, w');
  }

  class Service {
    var refs: map<Tag, Ref>
    var objects: map<Sha, TagObject>
    ghost var pubs: map<Id, Publisher>
    ghost var owners: map<Tag, Id>
    /** In a calm service nobody else is at work. */
    const calm: bool

    ghost function State(): World
      reads this
    {
      World(refs, objects, pubs, owners)
    }

    constructor (calm: bool, refs: map<Tag, Ref>, objects: map<Sha, TagObject>, ghost pubs: map<Id, Publisher>)
      requires forall id | id in pubs :: pubs[id].pc == Reading(false)
      ensures this.calm == calm && State() == World(refs, objects, pubs, map[])
      ensures Initial(State()) && Inv(State())
    {
      this.calm, this.refs, this.objects, this.pubs, this.owners := calm, refs, objects, pubs, map[];
    }

    /** Any number of steps of the others. Callers may assume no more than this. */
    method Interfere(ghost me: Id)
      requires Inv(State()) && me in pubs
      modifies this
      ensures Inv(State()) && Leads(old(State()), State()) && Grows(old(State()), State())
      ensures pubs[me] == old(pubs)[me]
      ensures calm ==> State() == old(State())
    {
      assert Trace([State()], State(), State());
    }

    ghost predicate At(me: Id, pc: Pc)
      reads this
    {
      me in pubs && pubs[me].pc == pc
    }

    /** The publisher gives up without a call. */
    ghost method GiveUp(me: Id)
      requires Inv(State()) && me in pubs && pubs[me].pc.Checking? && pubs[me].pc.ref.Lightweight?
      modifies this`pubs
      ensures State() == Next(old(State()), me, Answered, 0) && Inv(State()) && Leads(old(State()), State())
    {
      var after := Next(State(), me, Answered, 0);
      TakeStep(State(), me, Answered, 0);
      pubs := after.pubs;
    }

    /** Looks up the ref of a tag; "not found" is not an error. */
    method GetRef(ghost me: Id, tag: Tag, reply: Reply) returns (r: Result<Option<Ref>, Error>)
      requires Inv(State()) && me in pubs && pubs[me].pc.Reading? && pubs[me].tag == tag
      modifies this`pubs
      ensures State() == Next(old(State()), me, reply, 0) && Inv(State()) && Leads(old(State()), State())
      ensures r == if reply.Lost? || reply.Down? then Err(CallFailed)
                   else if reply.Answered? && tag in refs then Ok(Some(refs[tag])) else Ok(None)
    {
      ghost var after := Next(State(), me, reply, 0);
      TakeStep(State(), me, reply, 0);
      pubs := after.pubs;
      if reply.Lost? || reply.Down? {
        return Err(CallFailed);
      }
      return Ok(if reply.Answered? && tag in refs then Some(refs[tag]) else None);
    }

    method GetTagObject(ghost me: Id, sha: Sha, reply: Reply) returns (r: Result<TagObject, Error>)
      requires Inv(State()) && At(me, Checking(Annotated(sha)))
      modifies this`pubs
      ensures State() == Next(old(State()), me, reply, 0) && Inv(State()) && Leads(old(State()), State())
      ensures r == if reply.Answered? && sha in objects then Ok(objects[sha]) else Err(CallFailed)
    {
      ghost var after := Next(State(), me, reply, 0);
      TakeStep(State(), me, reply, 0);
      pubs := after.pubs;
      return if reply.Answered? && sha in objects then Ok(objects[sha]) else Err(CallFailed);
    }

    method PostTagObject(ghost me: Id, o: TagObject, reply: Reply, sha: Sha) returns (r: Result<Sha, Error>)
      requires Inv(State()) && At(me, Tagging) && o == Mine(pubs[me])
      modifies this`pubs, this`objects
      ensures State() == Next(old(State()), me, reply, sha) && Inv(State()) && Leads(old(State()), State())
      ensures r == if reply.Answered? && (sha in old(objects) ==> old(objects)[sha] == o) then Ok(sha) else Err(CallFailed)
    {
      ghost var after := Next(State(), me, reply, sha);
      TakeStep(State(), me, reply, sha);
      pubs := after.pubs;
      if reply.Denied? || reply.Down? || (sha in objects && objects[sha] != o) {
        return Err(CallFailed);
      }
      objects := objects[sha := o];
      return if reply.Answered? then Ok(sha) else Err(CallFailed);
    }

    /** Creates the ref if there is none. The result says whether it did; false is 422. */
    method PostRef(ghost me: Id, tag: Tag, sha: Sha, reply: Reply) returns (r: Result<bool, Error>)
      requires Inv(State()) && At(me, Posting(sha)) && pubs[me].tag == tag
      modifies this`pubs, this`refs, this`owners
      ensures State() == Next(old(State()), me, reply, 0) && Inv(State()) && Leads(old(State()), State())
      ensures r == if reply.Down? || reply.Lost? then Err(CallFailed) else Ok(reply.Answered? && tag !in old(refs))
    {
      ghost var after := Next(State(), me, reply, 0);
      TakeStep(State(), me, reply, 0);
      pubs, owners := after.pubs, after.owners;
      if reply.Down? {
        return Err(CallFailed);
      }
      var free := tag !in refs && !reply.Denied?;
      if free {
        refs := refs[tag := Annotated(sha)];
      }
      return if reply.Lost? then Err(CallFailed) else Ok(free);
    }
  }

  /** What every call of a publisher keeps; in a calm service nobody else changes anything. */
  twostate predicate Proceeds(s: Service, me: Id)
    reads s
  {
    && Inv(s.State()) && Leads(old(s.State()), s.State())
    && me in old(s.pubs) && me in s.pubs && Mine(s.pubs[me]) == Mine(old(s.pubs)[me])
  }

  /** The ref of the tag, or none if it does not exist. */
  method ReadTag(s: Service, ghost me: Id, ghost again: bool, tag: Tag, reply: Reply) returns (r: Result<Option<Ref>, Error>)
    requires Inv(s.State()) && s.At(me, Reading(again)) && s.pubs[me].tag == tag
    modifies s
    ensures Proceeds(s, me)
    ensures s.At(me, if r.Err? then Failed else if r.value.Some? then Checking(r.value.value)
                     else if again then Failed else Tagging)
    ensures reply.Lost? || reply.Down? ==> r == Err(CallFailed)
    ensures r.Err? ==> r == Err(CallFailed)
    ensures s.calm ==> s.refs == old(s.refs) && s.objects == old(s.objects)
    ensures s.calm && reply.Answered? ==> r == Ok(if tag in s.refs then Some(s.refs[tag]) else None)
  {
    s.Interfere(me);
    ghost var w := s.State();
    r := s.GetRef(me, tag, reply);
    LeadsOn(old(s.State()), w, s.State());
  }

  /** A tag found in the store is accepted only if it is an annotated tag of exactly the commit. */
  method RequireTagMatches(s: Service, ghost me: Id, tag: Tag, commit: Sha, ref: Ref, reply: Reply)
    returns (r: Result<(), Error>)
    requires Inv(s.State()) && s.At(me, Checking(ref)) && Mine(s.pubs[me]) == TagObject(tag, Commit(commit))
    modifies s
    ensures Proceeds(s, me)
    ensures s.At(me, if r.Ok? then Done(Exists) else Failed)
    ensures s.calm ==> s.refs == old(s.refs) && s.objects == old(s.objects)
    ensures s.calm && reply.Answered? ==> (r.Ok? <==> Identifies(old(s.State()), tag, commit))
    ensures r.Err? ==> r == Err(NotIdentified) && tag in s.refs
  {
    s.Interfere(me);
    ghost var w := s.State();
    assert PublisherKept(w, me);
    if ref.Lightweight? {
      s.GiveUp(me);
      LeadsOn(old(s.State()), w, s.State());
      return Err(NotIdentified);
    }
    var o := s.GetTagObject(me, ref.sha, reply);
    LeadsOn(old(s.State()), w, s.State());
    return if o.Ok? && o.value == TagObject(tag, Commit(commit)) then Ok(()) else Err(NotIdentified);
  }

  method CreateTagObject(s: Service, ghost me: Id, o: TagObject, reply: Reply, sha: Sha) returns (r: Result<Sha, Error>)
    requires Inv(s.State()) && s.At(me, Tagging) && Mine(s.pubs[me]) == o
    modifies s
    ensures Proceeds(s, me)
    ensures s.At(me, if r.Ok? then Posting(r.value) else Failed)
    ensures s.calm ==> s.refs == old(s.refs)
    ensures s.calm && reply.Answered? && sha !in old(s.objects) ==> r.Ok?
  {
    s.Interfere(me);
    ghost var w := s.State();
    r := s.PostTagObject(me, o, reply, sha);
    LeadsOn(old(s.State()), w, s.State());
  }

  method CreateRef(s: Service, ghost me: Id, tag: Tag, sha: Sha, reply: Reply) returns (r: Result<bool, Error>)
    requires Inv(s.State()) && s.At(me, Posting(sha)) && s.pubs[me].tag == tag
    modifies s
    ensures Proceeds(s, me)
    ensures s.At(me, if r.Err? then Failed else if r.value then Done(Created) else Reading(true))
    ensures r == Ok(true) ==> tag !in old(s.refs)
    ensures s.calm && reply.Answered? ==> r == Ok(tag !in old(s.refs))
  {
    s.Interfere(me);
    ghost var w := s.State();
    r := s.PostRef(me, tag, sha, reply);
    LeadsOn(old(s.State()), w, s.State());
  }

  datatype Proof = Proof(version: string, commit: Sha)

  /** Nobody else is at work and every call is answered. */
  ghost predicate Undisturbed(s: Service, replies: nat -> Reply) {
    s.calm && forall i :: replies(i) == Answered
  }

  /**
   Success always means that the tag is in the store and names exactly the commit. Undisturbed,
   the tag is created if it was not there, and otherwise accepted exactly if it identifies the commit.
  */
  method PublishTag(s: Service, ghost me: Id, proof: Option<Proof>, replies: nat -> Reply, sha: Sha)
    returns (r: Result<Outcome, Error>)
    requires Inv(s.State()) && s.At(me, Reading(false))
    requires proof.Some? ==> Mine(s.pubs[me]) == TagObject("v" + proof.value.version, Commit(proof.value.commit))
    modifies s
    ensures Proceeds(s, me)
    ensures proof.None? ==> r == Err(InvalidProof) && s.State() == old(s.State())
    ensures r.Ok? ==> s.At(me, Done(r.value)) && Identifies(s.State(), s.pubs[me].tag, s.pubs[me].commit)
    ensures r == Ok(Created) ==> s.pubs[me].tag !in old(s.refs)
    ensures r.Err? && proof.Some? ==> s.At(me, Failed) && r.error in {CallFailed, NotIdentified}
    ensures r == Err(NotIdentified) ==> s.pubs[me].tag in s.refs
    ensures proof.Some? && (replies(0).Lost? || replies(0).Down?) ==> r == Err(CallFailed)
    ensures Undisturbed(s, replies) && proof.Some? && old(s.pubs)[me].tag in old(s.refs) ==>
      r == if Identifies(old(s.State()), old(s.pubs)[me].tag, old(s.pubs)[me].commit) then Ok(Exists) else Err(NotIdentified)
    ensures Undisturbed(s, replies) && proof.Some? && old(s.pubs)[me].tag !in old(s.refs) && sha !in old(s.objects) ==>
      r == Ok(Created)
  {
    if proof == None {
      assert Trace([s.State()], s.State(), s.State());
      return Err(InvalidProof);
    }
    var tag, commit := "v" + proof.value.version, proof.value.commit;
    ghost var w0 := s.State();
    var existing := ReadTag(s, me, false, tag, replies(0));
    if existing.Err? {
      return Err(CallFailed);
    }
    ghost var w1 := s.State();
    if existing.value.Some? {
      var matched := RequireTagMatches(s, me, tag, commit, existing.value.value, replies(1));
      LeadsOn(w0, w1, s.State());
      assert PublisherKept(s.State(), me);
      return if matched.Ok? then Ok(Exists) else Err(matched.error);
    }
    var annotated := CreateTagObject(s, me, TagObject(tag, Commit(commit)), replies(2), sha);
    LeadsOn(w0, w1, s.State());
    if annotated.Err? {
      return Err(CallFailed);
    }
    ghost var w2 := s.State();
    LeadsKeepsInv(w0, w2);
    r := PushRef(s, me, tag, commit, annotated.value, replies);
    LeadsOn(w0, w2, s.State());
    assert PublisherKept(s.State(), me);
  }

  /** Creates the ref, or, if the race was lost, accepts the identical tag. */
  method PushRef(s: Service, ghost me: Id, tag: Tag, commit: Sha, sha: Sha, replies: nat -> Reply)
    returns (r: Result<Outcome, Error>)
    requires Inv(s.State()) && s.At(me, Posting(sha)) && Mine(s.pubs[me]) == TagObject(tag, Commit(commit))
    modifies s
    ensures Proceeds(s, me)
    ensures s.At(me, if r.Ok? then Done(r.value) else Failed)
    ensures r.Err? ==> r.error in {CallFailed, NotIdentified}
    ensures r == Err(NotIdentified) ==> tag in s.refs
    ensures r == Ok(Created) ==> tag !in old(s.refs)
    ensures s.calm && replies(3) == Answered && tag !in old(s.refs) ==> r == Ok(Created)
  {
    ghost var w0 := s.State();
    var created := CreateRef(s, me, tag, sha, replies(3));
    if created.Err? {
      return Err(CallFailed);
    }
    if created.value {
      return Ok(Created);
    }
    ghost var w1 := s.State();
    var raced := ReadTag(s, me, true, tag, replies(4));
    LeadsOn(w0, w1, s.State());
    if raced.Err? || raced.value.None? {
      return Err(CallFailed);
    }
    ghost var w2 := s.State();
    var matched := RequireTagMatches(s, me, tag, commit, raced.value.value, replies(5));
    LeadsOn(w0, w2, s.State());
    return if matched.Ok? then Ok(Exists) else Err(matched.error);
  }
}
