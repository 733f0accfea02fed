/** Serializability of interleaved requests: the main results about module `Serial`. */
module Serializability {
  import opened Wrappers
  import opened Bytes
  import opened KeyEncoding
  import opened DiskOps
  import opened Interleaving
  import opened Agreement
  import opened Alone
  import opened Serial
  import ObjectMap

  // ---- Requests as operations of the store ----

  function OpOf(b: Str, request: Request): ObjectMap.Op {
    match request
    case PutKey(put) => ObjectMap.Put(b, put.key, put.chunks, put.contentType, put.now)
    case DeleteKey(key, _) => ObjectMap.Delete(b, key)
    case DropBucket => ObjectMap.DeleteBucket(b)
  }

  function Ops(b: Str, done: seq<Completion>): seq<ObjectMap.Op> {
    seq(|done|, i requires 0 <= i < |done| => OpOf(b, done[i].request))
  }

  /** Whether an answer is what a reply comes to. */
  predicate Conveys(reply: ObjectMap.Reply, outcome: Result<()>) {
    if reply.Refused? then outcome == Failure(reply.error) else outcome == Success(())
  }

  ghost predicate SameAnswers(replies: seq<ObjectMap.Reply>, done: seq<Completion>) {
    |replies| == |done| && forall i :: 0 <= i < |done| ==> Conveys(replies[i], done[i].outcome)
  }

  lemma OneOp(d: Disk, b: Str, request: Request)
    ensures var ((d', r), (d'', reply)) := (Sequentially(d, b, request), ObjectMap.Run(d, OpOf(b, request)));
      d' == d'' && Conveys(reply, r)
  {
    hide EncodeKey, Received;
  }

  lemma {:induction false} ReplayedOps(d: Disk, b: Str, done: seq<Completion>, d': Disk)
    requires Replays(d, b, done, d')
    ensures ObjectMap.RunAll(d, Ops(b, done)).0 == d' && SameAnswers(ObjectMap.RunAll(d, Ops(b, done)).1, done)
    decreases |done|
  {
    hide ObjectMap.Run, Sequentially, Conveys;
    if done != [] {
      OneOp(d, b, done[0].request);
      ReplayedOps(Sequentially(d, b, done[0].request).0, b, done[1..], d');
      assert Ops(b, done)[1..] == Ops(b, done[1..]);
    }
  }

  // ---- Serializability ----

  lemma QuietAtEnd(o: Order, s: State, x: Dir, kept: Option<Str>)
    requires Follows(o, s, x, kept) && AllHandsFree(s.procs)
    ensures Quiet(o, s, x)
  {
    hide Inv, Quiet, DroppedBy, AllHandsFree;
    if !Quiet(o, s, x) {
      var id :| DroppedBy(s, x, id);
      DroppingIsAlone(s, x, id);
    }
  }

  /** The bucket has this object, if one is given. */
  predicate Has(dir: Dir, kept: Option<Str>) {
    kept.Some? ==> kept.value in Objects(dir) && !IsTempName(kept.value)
  }

  lemma StartFollows(o: Order, s: State, kept: Option<Str>)
    requires Initial(s) && Has(s.dir, kept)
    ensures Follows(o, s, s.dir, kept)
  {
    hide IsTempName;
    InitialInv(s);
    EqualIsQuiet(o, s);
  }

  /** A run in which overlapping requests on one key fit together, and each bucket deletion that
      looks into objects/ has the bucket to itself or sees an object that no request is replacing,
      or some object is known that nobody deletes. Once no request at work has changed anything, the
      bucket is that of the sequential run of the requests in the order asked for, and every request
      has got the same answer. */
  lemma Serializable(o: Order, d: Disk, b: Str, acts: seq<Action>, kept: Option<Str>)
    requires var s := State(DirOf(d, b), map[]);
      && Initial(s) && Has(s.dir, kept) && Possible(s, acts) && CivilRun(o, s, acts, kept)
      && AllHandsFree(Exec(s, acts).procs)
    ensures var s := State(DirOf(d, b), map[]);
      var done := Completed(o, s, acts);
      var (d', replies) := ObjectMap.RunAll(d, Ops(b, done));
      DirOf(d', b) == Exec(s, acts).dir && SameAnswers(replies, done)
  {
    hide Exec, Possible, CivilRun, Completed, Quiet, Replays, DirOf, Inv, HandsFree, Follows, IsTempName, Has;
    var s := State(DirOf(d, b), map[]);
    StartFollows(o, s, kept);
    var d' := FollowsAlways(o, s, d, b, acts, kept);
    ReplayedOps(d, b, Completed(o, s, acts), d');
    QuietAtEnd(o, Exec(s, acts), DirOf(d', b), kept);
    SameDirs(o, Exec(s, acts), DirOf(d', b));
  }

  predicate TextRequest(request: Request) {
    match request
    case PutKey(put) => ValidUtf8(put.key)
    case DeleteKey(key, _) => ValidUtf8(key)
    case DropBucket => true
  }

  ghost predicate TextArrivals(acts: seq<Action>) {
    forall a :: a in acts && a.Arrive? ==> TextRequest(a.request)
  }

  lemma {:induction false} CompletedText(o: Order, s: State, acts: seq<Action>)
    requires Possible(s, acts) && TextArrivals(acts)
    requires forall id :: id in s.procs ==> TextRequest(RequestOf(s.procs[id]))
    ensures forall c :: c in Completed(o, s, acts) ==> TextRequest(c.request)
    decreases |acts|
  {
    hide Step, TextRequest, IsTempName, EncodeKey, Commit;
    if acts != [] {
      var a, s' := acts[0], Next(s, acts[0]);
      assert a in acts;
      if a.Advance? {
        SameRequest(s.dir, s.procs[a.id], a.tmp);
      } else if a.Arrive? {
        FirstServes(a.request);
      }
      CompletedText(o, s', acts[1..]);
    }
  }

  lemma {:induction false} OpsAdmissible(d: Disk, b: Str, done: seq<Completion>, d': Disk)
    requires ObjectMap.Sound(d) && Replays(d, b, done, d')
    requires forall c :: c in done ==> TextRequest(c.request)
    ensures ObjectMap.AdmissibleRun(d, Ops(b, done))
    decreases |done|
  {
    hide ObjectMap.Run, ObjectMap.Ideal, Sequentially, ObjectMap.Sound, ObjectMap.View, ValidUtf8;
    if done != [] {
      assert done[0] in done;
      OneOp(d, b, done[0].request);
      ObjectMap.StepRefines(d, OpOf(b, done[0].request));
      OpsAdmissible(Sequentially(d, b, done[0].request).0, b, done[1..], d');
      assert Ops(b, done)[1..] == Ops(b, done[1..]);
    }
  }

  lemma SoundIsInitial(d: Disk, b: Str)
    requires ObjectMap.Sound(d)
    ensures Initial(State(DirOf(d, b), map[]))
  {
    hide ObjectMap.SoundObject;
  }

  /** So the interleaved requests behave as if each changed a map at one moment: on a well-formed disk
      they get the answers of the map, and at rest the bucket is that of a disk with its content. */
  lemma MapInOrder(o: Order, d: Disk, b: Str, acts: seq<Action>, kept: Option<Str>)
    requires ObjectMap.Sound(d) && TextArrivals(acts)
    requires var s := State(DirOf(d, b), map[]);
      && Has(s.dir, kept) && Possible(s, acts) && CivilRun(o, s, acts, kept) && AllHandsFree(Exec(s, acts).procs)
    ensures var s := State(DirOf(d, b), map[]);
      var done := Completed(o, s, acts);
      var d' := ObjectMap.RunAll(d, Ops(b, done)).0;
      && ObjectMap.Sound(d') && DirOf(d', b) == Exec(s, acts).dir
      && ObjectMap.View(d') == ObjectMap.IdealAll(ObjectMap.View(d), Ops(b, done)).0
      && SameAnswers(ObjectMap.IdealAll(ObjectMap.View(d), Ops(b, done)).1, done)
  {
    hide Exec, Possible, CivilRun, Completed, Replays, DirOf, Inv, Quiet, ObjectMap.Sound, ObjectMap.View, HandsFree;
    hide ObjectMap.RunAll, ObjectMap.IdealAll, Ops, Conveys, Follows, IsTempName, Has;
    var s := State(DirOf(d, b), map[]);
    SoundIsInitial(d, b);
    Serializable(o, d, b, acts, kept);
    StartFollows(o, s, kept);
    var d' := FollowsAlways(o, s, d, b, acts, kept);
    CompletedText(o, s, acts);
    OpsAdmissible(d, b, Completed(o, s, acts), d');
    ObjectMap.RunRefines(d, Ops(b, Completed(o, s, acts)));
  }

  // ---- One object that stays ----

  ghost predicate MannerlyRun(o: Order, s: State, acts: seq<Action>)
    requires Possible(s, acts)
    decreases |acts|
  {
    acts == [] || (Mannerly(o, s, acts[0]) && MannerlyRun(o, Next(s, acts[0]), acts[1..]))
  }

  ghost predicate NeverDeletes(acts: seq<Action>, g: Str) {
    forall a :: a in acts && a.Arrive? ==> !Deletes(a.request, g)
  }

  lemma {:induction false} GuardedIsCivil(o: Order, s: State, acts: seq<Action>, g: Str)
    requires Possible(s, acts) && NeverDeletes(acts, g) && MannerlyRun(o, s, acts)
    ensures CivilRun(o, s, acts, Some(g))
    decreases |acts|
  {
    hide Enabled, Next, Mannerly, ToItself, ShowsObject, NoLateDrop;
    if acts != [] {
      assert acts[0] in acts;
      GuardedIsCivil(o, Next(s, acts[0]), acts[1..], g);
    }
  }

  /** Bucket deletions may overlap anything, in any number, as long as the bucket has one object that
      no request deletes: they are all refused, in both runs. */
  lemma SerializableGuarded(o: Order, d: Disk, b: Str, acts: seq<Action>, g: Str)
    requires var s := State(DirOf(d, b), map[]);
      && Initial(s) && g in Objects(s.dir) && !IsTempName(g) && NeverDeletes(acts, g)
      && Possible(s, acts) && MannerlyRun(o, s, acts) && AllHandsFree(Exec(s, acts).procs)
    ensures var s := State(DirOf(d, b), map[]);
      var done := Completed(o, s, acts);
      var (d', replies) := ObjectMap.RunAll(d, Ops(b, done));
      DirOf(d', b) == Exec(s, acts).dir && SameAnswers(replies, done)
  {
    hide Exec, Possible, CivilRun, MannerlyRun, Completed, DirOf, Inv, HandsFree, IsTempName, NeverDeletes;
    var s := State(DirOf(d, b), map[]);
    GuardedIsCivil(o, s, acts, g);
    Serializable(o, d, b, acts, Some(g));
  }

  // ---- Every request has one place ----

  /** The process has its place in the order already. */
  predicate Settles(o: Order, p: Proc) {
    p.Ended? || (o.ByEffect? && p.DeleteMeta?)
  }

  /** Its answer, given or certain. */
  function OutcomeOf(p: Proc): Result<()> {
    if p.Ended? then p.outcome else Success(())
  }

  /** From one set of processes to a later one the process keeps its request, gets one place with
      its answer, and keeps that. */
  ghost predicate PlacedOnce(
      o: Order, before: map<nat, Proc>, end: map<nat, Proc>, done: seq<Completion>, id: nat)
  {
    && (id in before ==> id in end && RequestOf(end[id]) == RequestOf(before[id]))
    && (id in before && Settles(o, before[id]) ==>
         && Settles(o, end[id]) && OutcomeOf(end[id]) == OutcomeOf(before[id])
         && forall c :: c in done ==> c.id != id)
    && (id in end && Settles(o, end[id]) && !(id in before && Settles(o, before[id])) ==>
         Completion(id, RequestOf(end[id]), OutcomeOf(end[id])) in done)
    && (forall c :: c in done && c.id == id ==> id in end && Settles(o, end[id]))
    && (forall i, j :: 0 <= i < j < |done| && done[i].id == id ==> done[j].id != id)
  }

  lemma PlacedTwice(
      o: Order, before: map<nat, Proc>, mid: map<nat, Proc>, end: map<nat, Proc>,
      now: seq<Completion>, rest: seq<Completion>, id: nat)
    requires PlacedOnce(o, before, mid, now, id) && PlacedOnce(o, mid, end, rest, id)
    ensures PlacedOnce(o, before, end, now + rest, id)
  {
    hide Settles, OutcomeOf;
    var done := now + rest;
    forall i, j | 0 <= i < j < |done| && done[i].id == id ensures done[j].id != id {
      if i < |now| <= j {
        assert done[i] in now && done[j] == rest[j - |now|] && rest[j - |now|] in rest;
      } else if |now| <= i {
        assert done[i] == rest[i - |now|] && done[j] == rest[j - |now|];
      }
    }
  }

  lemma StepPlaces(o: Order, dir: Dir, p: Proc, tmp: Str)
    ensures var p' := Step(dir, p, tmp).1;
      && (Settles(o, p) ==> Settles(o, p') && OutcomeOf(p') == OutcomeOf(p) && Commit(o, p, p').None?)
      && (!Settles(o, p) ==> Commit(o, p, p') == if Settles(o, p') then Some(OutcomeOf(p')) else None)
  {
    hide EncodeKey, Received;
  }

  lemma FirstUnsettled(o: Order, request: Request)
    ensures !Settles(o, First(request))
  {
  }

  lemma ActionPlaces(o: Order, s: State, a: Action, id: nat)
    requires Enabled(s, a) && !a.Crash?
    ensures PlacedOnce(o, s.procs, Next(s, a).procs, Commits(o, s, a), id)
  {
    hide Step, IsTempName, EncodeKey, Commit, Settles, OutcomeOf;
    if a.Advance? {
      StepPlaces(o, s.dir, s.procs[a.id], a.tmp);
      SameRequest(s.dir, s.procs[a.id], a.tmp);
    } else {
      FirstUnsettled(o, a.request);
    }
  }

  lemma {:induction false} RunPlaces(o: Order, s: State, acts: seq<Action>, id: nat)
    requires Possible(s, acts) && forall a :: a in acts ==> !a.Crash?
    ensures PlacedOnce(o, s.procs, Exec(s, acts).procs, Completed(o, s, acts), id)
    decreases |acts|
  {
    hide Next, Enabled, Commits, PlacedOnce, Settles, OutcomeOf;
    if acts == [] {
      assert PlacedOnce(o, s.procs, s.procs, [], id) by {
        StaysPlaced(o, s.procs, id);
      }
    } else {
      assert acts[0] in acts;
      ActionPlaces(o, s, acts[0], id);
      RunPlaces(o, Next(s, acts[0]), acts[1..], id);
      PlacedTwice(o, s.procs, Next(s, acts[0]).procs, Exec(s, acts).procs,
                  Commits(o, s, acts[0]), Completed(o, Next(s, acts[0]), acts[1..]), id);
    }
  }

  lemma StaysPlaced(o: Order, procs: map<nat, Proc>, id: nat)
    ensures PlacedOnce(o, procs, procs, [], id)
  {
  }

  /** The order lists every answered request of a run once, with the answer it has got, and nothing
      else. */
  lemma EveryAnswerOnce(o: Order, dir: Dir, acts: seq<Action>, id: nat)
    requires var s := State(dir, map[]); Possible(s, acts) && AllHandsFree(Exec(s, acts).procs)
    requires forall a :: a in acts ==> !a.Crash?
    ensures var s := State(dir, map[]);
      var end, done := Exec(s, acts).procs, Completed(o, s, acts);
      && (id in end && end[id].Ended? ==> Completion(id, RequestOf(end[id]), end[id].outcome) in done)
      && (forall c :: c in done && c.id == id ==> id in end && end[id].Ended?)
      && (forall i, j :: 0 <= i < j < |done| && done[i].id == id ==> done[j].id != id)
  {
    hide Exec, Possible, Completed;
    RunPlaces(o, State(dir, map[]), acts, id);
  }
}
