/** Serializability: interleaved requests on one bucket leave it as the same requests run one after
    the other, and get the same answers, as long as overlapping requests on one key are compatible
    and a bucket deletion, when it looks into objects/, has the bucket to itself or sees an object
    that no request is replacing. */
module Serial {
  import opened Wrappers
  import opened Bytes
  import opened KeyEncoding
  import opened Meta
  import opened DiskOps
  import opened Interleaving
  import opened Agreement
  import opened Alone

  /** The order of the sequential run: that of the answers, or that in which requests take effect.
      They differ only for a delete, which takes effect when it removes the body. */
  datatype Order = ByAnswer | ByEffect

  /** Requests on one key that may overlap. In the order of answers two deletes may not: the one
      that finds nothing is answered first. */
  predicate Fits(o: Order, x: Request, y: Request) {
    Compatible(x, y) && (o.ByAnswer? ==> !(x.DeleteKey? && y.DeleteKey?))
  }

  /** A request of a process, and its answer. */
  datatype Completion = Completion(id: nat, request: Request, outcome: Result<()>)

  /** The answer with which a step places its request in the order, if it does. */
  function Commit(o: Order, p: Proc, p': Proc): Option<Result<()>> {
    if o.ByEffect? && p.DeleteBody? && p'.DeleteMeta? then Some(Success(()))
    else if p.Ended? || !p'.Ended? || (o.ByEffect? && p.DeleteMeta?) then None
    else Some(p'.outcome)
  }

  function Commits(o: Order, s: State, a: Action): seq<Completion>
    requires Enabled(s, a)
  {
    if !a.Advance? then []
    else
      var p := s.procs[a.id];
      var c := Commit(o, p, Next(s, a).procs[a.id]);
      if c.Some? then [Completion(a.id, RequestOf(p), c.value)] else []
  }

  /** The requests of a run in that order. */
  function Completed(o: Order, s: State, acts: seq<Action>): seq<Completion>
    requires Possible(s, acts)
    decreases |acts|
  {
    if acts == [] then [] else Commits(o, s, acts[0]) + Completed(o, Next(s, acts[0]), acts[1..])
  }

  /** Run one after the other, the requests get these answers and lead from one disk to the other. */
  predicate Replays(d: Disk, b: Str, done: seq<Completion>, d': Disk)
    decreases |done|
  {
    if done == [] then d == d'
    else
      var (d1, r) := Sequentially(d, b, done[0].request);
      r == done[0].outcome && Replays(d1, b, done[1..], d')
  }

  /** A bucket deletion that has found objects/ empty and goes on to remove directories. */
  predicate LateDrop(p: Proc) {
    !p.Ended? && RequestOf(p).DropBucket? && !p.BucketCheck? && !p.BucketEmpty?
  }

  ghost predicate NoLateDrop(procs: map<nat, Proc>) {
    forall id :: id in procs ==> !LateDrop(procs[id])
  }

  /** A process that has changed nothing yet. */
  predicate HandsFree(p: Proc) {
    p.Ended? || p.PutCheck? || p.PutCreate? || p.DeleteBody? || p.BucketCheck? || p.BucketEmpty?
  }

  /** A process in whose way a bucket deletion is not: it has ended, or it is a delete that has not
      begun, and will find no object. */
  predicate Bystander(p: Proc) {
    p.Ended? || (p.DeleteBody? && p.name != [])
  }

  /** All processes but one are bystanders. */
  ghost predicate ToItself(s: State, id: nat) {
    forall q :: q in s.procs && q != id ==> Bystander(s.procs[q])
  }

  /** Some object is in place that no request is replacing. */
  ghost predicate ShowsObject(s: State) {
    exists g :: g in Objects(s.dir) && Untouched(s.procs, g)
  }

  ghost predicate Untouched(procs: map<nat, Proc>, g: Str) {
    forall id :: id in procs ==> BodyTemp(procs[id]) != Some(g) && !PastRename(procs[id], g)
                                 && !(procs[id].DeleteMeta? && procs[id].name == g)
  }

  /** Requests on one key fit together, and the server dies only while no request at work has changed
      anything. */
  ghost predicate Mannerly(o: Order, s: State, a: Action) {
    match a
    case Arrive(_, request) =>
      forall q, n :: q in s.procs && ActiveOn(s.procs[q], n) && request.Target() == Some(n) ==>
        Fits(o, request, RequestOf(s.procs[q]))
    case Advance(_, _) => true
    case Crash => AllHandsFree(s.procs)
  }

  ghost predicate AllHandsFree(procs: map<nat, Proc>) {
    forall id :: id in procs ==> HandsFree(procs[id])
  }

  /** Besides, a bucket deletion that looks into objects/ has the bucket to itself or sees an object,
      and once it removes directories nothing arrives. None of this is asked when an object `kept`
      is known that no request deletes. */
  ghost predicate Civil(o: Order, s: State, a: Action, kept: Option<Str>)
    requires Enabled(s, a)
  {
    && Mannerly(o, s, a)
    && (a.Arrive? && kept.None? ==> NoLateDrop(s.procs))
    && (a.Arrive? && kept.Some? ==> !Deletes(a.request, kept.value))
    && (a.Advance? && s.procs[a.id].BucketEmpty? ==> ToItself(s, a.id) || ShowsObject(s) || kept.Some?)
  }

  ghost predicate CivilRun(o: Order, s: State, acts: seq<Action>, kept: Option<Str>)
    requires Possible(s, acts)
    decreases |acts|
  {
    acts == [] || (Civil(o, s, acts[0], kept) && CivilRun(o, Next(s, acts[0]), acts[1..], kept))
  }

  // ---- The bucket as the placed requests left it ----

  predicate SameShape(x: Dir, y: Dir) {
    && (x.Some? <==> y.Some?) && (HasObjects(x) <==> HasObjects(y)) && (HasMeta(x) <==> HasMeta(y))
    && (x.Some? && y.Some? ==> x.value.info == y.value.info)
  }

  predicate SameEntry<T(==)>(x: map<Str, T>, y: map<Str, T>, f: Str) {
    (f in x <==> f in y) && (f in x && f in y ==> x[f] == y[f])
  }

  /** The files in which a process is ahead of its place in the order, or behind it: in objects/ and
      in meta/. */
  predicate HoldsBody(o: Order, p: Proc, f: Str) {
    BodyTemp(p) == Some(f) || PastRename(p, f) || (o.ByAnswer? && p.DeleteMeta? && p.name == f)
  }

  predicate HoldsMeta(o: Order, p: Proc, f: Str) {
    MetaTemp(p) == Some(f) || (o.ByEffect? && p.DeleteMeta? && SidecarName(p.name) == f)
  }

  /** How far a request at work is in the bucket `y`, against the bucket `x` of the placed ones. */
  predicate Phase(o: Order, x: Dir, y: Dir, p: Proc) {
    && (BodyTemp(p).Some? ==> p.tmp !in Objects(x) && HasObjects(y))
    && (MetaTemp(p).Some? ==> p.tmp !in Sidecars(x))
    && (p.PutCreate? || p.BucketEmpty? ==> y.Some?)
    && (p.PutCleanup? ==> Received(p.put.chunks).None? || p.put.name == [])
    && (p.MetaCreate? || p.MetaWrite? || p.MetaRename? ==> HasObjects(y) && HasMeta(y) && BodyIs(y, p.put))
    && (p.DeleteMeta? ==> DeletePhase(o, x, y, p.name))
  }

  predicate DeletePhase(o: Order, x: Dir, y: Dir, n: Str) {
    && n != [] && n !in Objects(y)
    && (if o.ByAnswer? then n in Objects(x) else SidecarName(n) !in Sidecars(x))
  }

  ghost predicate FreeBody(o: Order, procs: map<nat, Proc>, f: Str) {
    forall id :: id in procs ==> !HoldsBody(o, procs[id], f)
  }

  ghost predicate FreeMeta(o: Order, procs: map<nat, Proc>, f: Str) {
    forall id :: id in procs ==> !HoldsMeta(o, procs[id], f)
  }

  /** No bucket deletion removes directories: the bucket is as the placed requests left it, but for
      the files that requests at work hold. */
  ghost predicate Quiet(o: Order, s: State, x: Dir) {
    && NoLateDrop(s.procs)
    && SameShape(x, s.dir)
    && (forall f :: FreeBody(o, s.procs, f) ==> SameEntry(Objects(x), Objects(s.dir), f))
    && (forall f :: FreeMeta(o, s.procs, f) ==> SameEntry(Sidecars(x), Sidecars(s.dir), f))
    && (forall id :: id in s.procs ==> Phase(o, x, s.dir, s.procs[id]))
  }

  /** A bucket deletion removes directories, alone, and ends as if it had not begun yet. */
  ghost predicate Dropping(s: State, x: Dir) {
    exists id :: DroppedBy(s, x, id)
  }

  ghost predicate DroppedBy(s: State, x: Dir, id: nat) {
    && id in s.procs && LateDrop(s.procs[id]) && ToItself(s, id)
    && Objects(s.dir) == map[] && Objects(x) == map[]
    && Finish(s.dir, s.procs[id], []) == Finish(x, BucketCheck, [])
  }

  ghost predicate Fitting(o: Order, procs: map<nat, Proc>) {
    forall p, q, n :: p in procs && q in procs && p != q && ActiveOn(procs[p], n) && ActiveOn(procs[q], n) ==>
      Fits(o, RequestOf(procs[p]), RequestOf(procs[q]))
  }

  /** The object is there, in both buckets, and no request at work deletes it. */
  ghost predicate Keeps(s: State, x: Dir, kept: Option<Str>) {
    kept.Some? ==>
      && kept.value in Objects(s.dir) && kept.value in Objects(x) && !IsTempName(kept.value)
      && forall id :: id in s.procs ==> !(Deletes(RequestOf(s.procs[id]), kept.value) && !s.procs[id].Ended?)
  }

  ghost predicate Follows(o: Order, s: State, x: Dir, kept: Option<Str>) {
    Inv(s) && Fitting(o, s.procs) && Keeps(s, x, kept) && (Quiet(o, s, x) || Dropping(s, x))
  }

  // ---- One process ----

  lemma StepShape(dir: Dir, p: Proc, tmp: Str)
    requires !RequestOf(p).DropBucket?
    ensures SameShape(dir, Step(dir, p, tmp).0)
  {
    hide EncodeKey, Received;
  }

  /** The disk of the placed requests after a step. */
  function Placing(o: Order, d: Disk, b: Str, p: Proc, p': Proc): Disk {
    if Commit(o, p, p').Some? then Sequentially(d, b, RequestOf(p)).0 else d
  }

  /** What a step of a request does against the sequential operation. When it places the request,
      the operation gives the same answer. A file that it does not hold afterwards is the same on
      both sides if it was held, or the same, before. */
  ghost predicate Simulated(o: Order, d: Disk, b: Str, dir: Dir, p: Proc, tmp: Str, f: Str) {
    var (dir', p') := Step(dir, p, tmp);
    var c, x, x' := Commit(o, p, p'), DirOf(d, b), DirOf(Placing(o, d, b, p, p'), b);
    && (c.Some? ==> c.value == Sequentially(d, b, RequestOf(p)).1)
    && SameShape(x', dir') && Phase(o, x', dir', p')
    && (!HoldsBody(o, p', f) && (HoldsBody(o, p, f) || SameEntry(Objects(x), Objects(dir), f)) ==>
         SameEntry(Objects(x'), Objects(dir'), f))
    && (!HoldsMeta(o, p', f) && (HoldsMeta(o, p, f) || SameEntry(Sidecars(x), Sidecars(dir), f)) ==>
         SameEntry(Sidecars(x'), Sidecars(dir'), f))
  }

  /** What a request at work and the disk of the placed ones start from. */
  ghost predicate Ready(o: Order, d: Disk, b: Str, dir: Dir, p: Proc, tmp: Str) {
    && !p.Ended? && DirOrder(dir) && OwnTemps(dir, p) && Fresh(dir, tmp)
    && SameShape(DirOf(d, b), dir) && Phase(o, DirOf(d, b), dir, p)
    && tmp !in Objects(DirOf(d, b)) && tmp !in Sidecars(DirOf(d, b))
    && (p.DeleteBody? ==> SameEntry(Objects(DirOf(d, b)), Objects(dir), p.name))
  }

  lemma BeginSimulates(o: Order, d: Disk, b: Str, dir: Dir, p: Proc, tmp: Str, f: Str)
    requires Ready(o, d, b, dir, p, tmp) && (p.PutCheck? || p.PutCreate? || p.PutCleanup?)
    ensures Simulated(o, d, b, dir, p, tmp, f)
  {
    hide EncodeKey, IsTempName, Received;
    OwnNameIsNoTemp(p, tmp);
  }

  lemma WriteSimulates(o: Order, d: Disk, b: Str, dir: Dir, p: Proc, tmp: Str, f: Str)
    requires Ready(o, d, b, dir, p, tmp) && p.PutWrite?
    ensures Simulated(o, d, b, dir, p, tmp, f)
  {
    hide EncodeKey, IsTempName, Received;
    OwnNameIsNoTemp(p, p.tmp);
    if p.i < |p.put.chunks| {
      ReceivedSnoc(p.put.chunks, p.i);
      if p.put.chunks[p.i].Broken? {
        BrokenStays(p.put.chunks, p.i + 1);
      }
    } else {
      assert p.put.chunks[..p.i] == p.put.chunks;
    }
  }

  lemma SidecarSimulates(o: Order, d: Disk, b: Str, dir: Dir, p: Proc, tmp: Str, f: Str)
    requires Ready(o, d, b, dir, p, tmp) && (p.MetaCreate? || p.MetaWrite?)
    ensures Simulated(o, d, b, dir, p, tmp, f)
  {
    hide EncodeKey, IsTempName, Received;
    OwnNameIsNoTemp(p, tmp);
  }

  lemma RenameSimulates(o: Order, d: Disk, b: Str, dir: Dir, p: Proc, tmp: Str, f: Str)
    requires Ready(o, d, b, dir, p, tmp) && p.MetaRename?
    ensures Simulated(o, d, b, dir, p, tmp, f)
  {
    hide EncodeKey, IsTempName, Received, SidecarName;
    OwnNameIsNoTemp(p, p.tmp);
  }

  lemma RemovalSimulates(o: Order, d: Disk, b: Str, dir: Dir, p: Proc, tmp: Str, f: Str)
    requires Ready(o, d, b, dir, p, tmp) && p.DeleteBody?
    ensures Simulated(o, d, b, dir, p, tmp, f)
  {
    hide EncodeKey, IsTempName, SidecarName;
  }

  lemma DeleteSimulates(o: Order, d: Disk, b: Str, dir: Dir, p: Proc, tmp: Str, f: Str)
    requires Ready(o, d, b, dir, p, tmp) && p.DeleteMeta?
    ensures Simulated(o, d, b, dir, p, tmp, f)
  {
    hide EncodeKey, IsTempName, SidecarName;
  }

  lemma StepSimulates(o: Order, d: Disk, b: Str, dir: Dir, p: Proc, tmp: Str, f: Str)
    requires Ready(o, d, b, dir, p, tmp) && !RequestOf(p).DropBucket?
    ensures Simulated(o, d, b, dir, p, tmp, f)
  {
    hide Ready, Simulated, Step;
    assert !p.Ended? by {
      NotEnded(o, d, b, dir, p, tmp);
    }
    if p.PutCheck? || p.PutCreate? || p.PutCleanup? {
      BeginSimulates(o, d, b, dir, p, tmp, f);
    } else if p.PutWrite? {
      WriteSimulates(o, d, b, dir, p, tmp, f);
    } else if p.MetaCreate? || p.MetaWrite? {
      SidecarSimulates(o, d, b, dir, p, tmp, f);
    } else if p.MetaRename? {
      RenameSimulates(o, d, b, dir, p, tmp, f);
    } else if p.DeleteBody? {
      RemovalSimulates(o, d, b, dir, p, tmp, f);
    } else {
      DeleteSimulates(o, d, b, dir, p, tmp, f);
    }
  }

  lemma NotEnded(o: Order, d: Disk, b: Str, dir: Dir, p: Proc, tmp: Str)
    requires Ready(o, d, b, dir, p, tmp)
    ensures !p.Ended?
  {
  }

  // ---- All processes ----

  /** Nobody holds a fresh name. */
  lemma HeldIsNamed(o: Order, s: State, q: nat, tmp: Str)
    requires Inv(s) && q in s.procs && Fresh(s.dir, tmp)
    ensures !HoldsBody(o, s.procs[q], tmp) && !HoldsMeta(o, s.procs[q], tmp)
  {
    hide EncodeKey, IsTempName, Received, OwnDirs, DirOrder, Distinct;
    assert OwnTemps(s.dir, s.procs[q]);
    OwnNameIsNoTemp(s.procs[q], tmp);
  }

  /** Nobody holds the body of a key that a delete is about to remove. */
  lemma DeletedIsFree(o: Order, s: State, id: nat, q: nat)
    requires Inv(s) && Fitting(o, s.procs) && id in s.procs && s.procs[id].DeleteBody? && q in s.procs
    ensures !HoldsBody(o, s.procs[q], s.procs[id].name)
  {
    hide EncodeKey, IsTempName, Received, OwnDirs, DirOrder, Distinct;
    var p, other := s.procs[id], s.procs[q];
    assert OwnTemps(s.dir, p) && OwnTemps(s.dir, other);
    TargetNoTemp(p);
    assert ActiveOn(p, p.name);
    if q != id && ActiveOn(other, p.name) {
      assert Fits(o, RequestOf(p), RequestOf(other));
    }
  }

  lemma ReadyToStep(o: Order, s: State, d: Disk, b: Str, id: nat, tmp: Str)
    requires Inv(s) && Fitting(o, s.procs) && Quiet(o, s, DirOf(d, b))
    requires Enabled(s, Advance(id, tmp)) && !s.procs[id].Ended?
    ensures Ready(o, d, b, s.dir, s.procs[id], tmp)
  {
    hide OwnTemps, OwnDirs, DirOrder, Distinct, Phase, SameShape, IsTempName, HoldsBody, HoldsMeta, Fitting;
    forall q | q in s.procs ensures !HoldsBody(o, s.procs[q], tmp) && !HoldsMeta(o, s.procs[q], tmp) {
      HeldIsNamed(o, s, q, tmp);
    }
    assert FreeBody(o, s.procs, tmp) && FreeMeta(o, s.procs, tmp);
    if s.procs[id].DeleteBody? {
      forall q | q in s.procs ensures !HoldsBody(o, s.procs[q], s.procs[id].name) {
        DeletedIsFree(o, s, id, q);
      }
      assert FreeBody(o, s.procs, s.procs[id].name);
    }
  }

  /** The disk of the placed requests after the next action. */
  function Placed(o: Order, d: Disk, b: Str, s: State, a: Action): Disk
    requires Enabled(s, a)
  {
    if a.Advance? then Placing(o, d, b, s.procs[a.id], Next(s, a).procs[a.id]) else d
  }

  lemma BodiesFollow(o: Order, s: State, d: Disk, b: Str, id: nat, tmp: Str, f: Str)
    requires Inv(s) && Fitting(o, s.procs) && Quiet(o, s, DirOf(d, b))
    requires Enabled(s, Advance(id, tmp)) && !s.procs[id].Ended? && !RequestOf(s.procs[id]).DropBucket?
    requires FreeBody(o, Next(s, Advance(id, tmp)).procs, f)
    ensures var a := Advance(id, tmp);
      SameEntry(Objects(DirOf(Placed(o, d, b, s, a), b)), Objects(Next(s, a).dir), f)
  {
    hide Inv, Step, Phase, SameShape, IsTempName, HoldsBody, HoldsMeta, Placing, FreeMeta, DirOf, Ready, Fitting;
    hide SameEntry;
    var s' := Next(s, Advance(id, tmp));
    ReadyToStep(o, s, d, b, id, tmp);
    StepSimulates(o, d, b, s.dir, s.procs[id], tmp, f);
    assert !HoldsBody(o, s'.procs[id], f);
    if !HoldsBody(o, s.procs[id], f) {
      forall q | q in s.procs ensures !HoldsBody(o, s.procs[q], f) {
        assert !HoldsBody(o, s'.procs[q], f);
      }
      assert FreeBody(o, s.procs, f);
    }
  }

  lemma SidecarsFollow(o: Order, s: State, d: Disk, b: Str, id: nat, tmp: Str, f: Str)
    requires Inv(s) && Fitting(o, s.procs) && Quiet(o, s, DirOf(d, b))
    requires Enabled(s, Advance(id, tmp)) && !s.procs[id].Ended? && !RequestOf(s.procs[id]).DropBucket?
    requires FreeMeta(o, Next(s, Advance(id, tmp)).procs, f)
    ensures var a := Advance(id, tmp);
      SameEntry(Sidecars(DirOf(Placed(o, d, b, s, a), b)), Sidecars(Next(s, a).dir), f)
  {
    hide Inv, Step, Phase, SameShape, IsTempName, HoldsBody, HoldsMeta, Placing, FreeBody, DirOf, Ready, Fitting;
    hide SameEntry;
    var s' := Next(s, Advance(id, tmp));
    ReadyToStep(o, s, d, b, id, tmp);
    StepSimulates(o, d, b, s.dir, s.procs[id], tmp, f);
    assert !HoldsMeta(o, s'.procs[id], f);
    if !HoldsMeta(o, s.procs[id], f) {
      forall q | q in s.procs ensures !HoldsMeta(o, s.procs[q], f) {
        assert !HoldsMeta(o, s'.procs[q], f);
      }
      assert FreeMeta(o, s.procs, f);
    }
  }

  /** What the step of a request leaves to be said of the request itself. */
  lemma OwnFollows(o: Order, s: State, d: Disk, b: Str, id: nat, tmp: Str)
    requires Inv(s) && Fitting(o, s.procs) && Quiet(o, s, DirOf(d, b))
    requires Enabled(s, Advance(id, tmp)) && !s.procs[id].Ended? && !RequestOf(s.procs[id]).DropBucket?
    ensures var (a, s') := (Advance(id, tmp), Next(s, Advance(id, tmp)));
      var x' := DirOf(Placed(o, d, b, s, a), b);
      && SameShape(x', s'.dir) && Phase(o, x', s'.dir, s'.procs[id])
      && RequestOf(s'.procs[id]) == RequestOf(s.procs[id])
      && (Commits(o, s, a) != [] ==> Commits(o, s, a)[0].outcome == Sequentially(d, b, RequestOf(s.procs[id])).1)
  {
    hide Step, OwnTemps, OwnDirs, DirOrder, Distinct, IsTempName, Received, EncodeKey, Sequentially, SameEntry, Phase;
    hide Ready, Fitting, HoldsBody, HoldsMeta, SameShape;
    ReadyToStep(o, s, d, b, id, tmp);
    StepSimulates(o, d, b, s.dir, s.procs[id], tmp, []);
    SameRequest(s.dir, s.procs[id], tmp);
  }

  // ---- Other processes ----

  /** Placing a request adds no file but its own two, and removes none unless it deletes. */
  lemma PlacingFrame(o: Order, d: Disk, b: Str, p: Proc, p': Proc, f: Str)
    requires RequestOf(p).Named() && !RequestOf(p).DropBucket? && RequestOf(p).Target().Some?
    ensures var (x, x', r) := (DirOf(d, b), DirOf(Placing(o, d, b, p, p'), b), RequestOf(p));
      && (f in Objects(x') && f !in Objects(x) ==> r.PutKey? && f == r.put.name)
      && (f in Sidecars(x') && f !in Sidecars(x) ==> Delivers(r) && f == SidecarName(r.put.name))
      && (f in Objects(x) && f !in Objects(x') ==> r.DeleteKey? && f == r.name)
  {
    hide EncodeKey, Received;
  }

  /** Temp files of another process stay out of the other bucket. */
  lemma OthersTemps(o: Order, s: State, d: Disk, b: Str, p: Proc, p': Proc, q: Proc)
    requires OwnTemps(s.dir, p) && OwnTemps(s.dir, q) && !RequestOf(p).DropBucket?
    requires Phase(o, DirOf(d, b), s.dir, q)
    ensures var x' := DirOf(Placing(o, d, b, p, p'), b);
      && (BodyTemp(q).Some? ==> q.tmp !in Objects(x'))
      && (MetaTemp(q).Some? ==> q.tmp !in Sidecars(x'))
  {
    hide EncodeKey, IsTempName, Received, Sequentially, DirOf, Placing;
    if BodyTemp(q).Some? || MetaTemp(q).Some? {
      OwnNameIsNoTemp(p, q.tmp);
      PlacingFrame(o, d, b, p, p', q.tmp);
    }
  }

  /** What another process between the two files of its key has made of the body stays. */
  lemma OthersBody(s: State, o: Order, id: nat, tmp: Str, q: nat, n: Str)
    requires Inv(s) && Fitting(o, s.procs) && Enabled(s, Advance(id, tmp)) && q in s.procs && q != id
    requires Between(s.procs[q], n) && Halfway(s.dir, s.procs[q])
    requires Between(s.procs[id], n) ==> Halfway(s.dir, s.procs[id])
    ensures Halfway(Step(s.dir, s.procs[id], tmp).0, s.procs[q])
  {
    hide Step, EncodeKey, IsTempName, Received, OwnDirs, Distinct, Halfway, SameFiles;
    var p, other := s.procs[id], s.procs[q];
    assert OwnTemps(s.dir, p) && OwnTemps(s.dir, other);
    TargetNoTemp(other);
    if ActiveOn(p, n) {
      assert Fits(o, RequestOf(p), RequestOf(other));
      OtherHalfway(s.dir, p, tmp, other, n);
    } else {
      OutsiderStep(s, id, tmp, n);
      SameFilesAgree(s.dir, Step(s.dir, p, tmp).0, n, other);
    }
  }

  lemma PhaseIsHalfway(o: Order, x: Dir, y: Dir, p: Proc, n: Str)
    requires Phase(o, x, y, p) && Between(p, n)
    ensures Halfway(y, p)
  {
    hide Received;
  }

  /** A delete past its removal: the other bucket stays on its side. */
  lemma OthersDelete(o: Order, s: State, d: Disk, b: Str, id: nat, p': Proc, q: nat)
    requires Inv(s) && Fitting(o, s.procs) && id in s.procs && q in s.procs && q != id
    requires !RequestOf(s.procs[id]).DropBucket? && s.procs[q].DeleteMeta? && !s.procs[id].Ended?
    requires Phase(o, DirOf(d, b), s.dir, s.procs[q])
    ensures var (n, x') := (s.procs[q].name, DirOf(Placing(o, d, b, s.procs[id], p'), b));
      if o.ByAnswer? then n in Objects(x') else SidecarName(n) !in Sidecars(x')
  {
    hide EncodeKey, IsTempName, Received, Sequentially, DirOf, Placing, OwnDirs, DirOrder, Distinct, SidecarName;
    var p, other := s.procs[id], s.procs[q];
    var n := other.name;
    assert OwnTemps(s.dir, p) && ActiveOn(other, n);
    PlacingFrame(o, d, b, p, p', n);
    PlacingFrame(o, d, b, p, p', SidecarName(n));
    StemOfSidecar(n);
    if RequestOf(p).PutKey? {
      StemOfSidecar(RequestOf(p).put.name);
    }
    if ActiveOn(p, n) {
      assert Fits(o, RequestOf(p), RequestOf(other));
    }
  }

  lemma OthersPhase(o: Order, s: State, d: Disk, b: Str, id: nat, tmp: Str, q: nat)
    requires Inv(s) && Fitting(o, s.procs) && Enabled(s, Advance(id, tmp)) && !RequestOf(s.procs[id]).DropBucket?
    requires !s.procs[id].Ended? && q in s.procs && q != id
    requires Phase(o, DirOf(d, b), s.dir, s.procs[id]) && Phase(o, DirOf(d, b), s.dir, s.procs[q])
    ensures Phase(o, DirOf(Placed(o, d, b, s, Advance(id, tmp)), b), Step(s.dir, s.procs[id], tmp).0, s.procs[q])
  {
    hide EncodeKey, IsTempName, Received, OwnDirs, DirOrder, Distinct, Step, Sequentially, Placing, Fitting;
    hide SidecarName;
    hide DirOf;
    var p, other := s.procs[id], s.procs[q];
    assert OwnTemps(s.dir, p) && OwnTemps(s.dir, other);
    var (y', p') := Step(s.dir, p, tmp);
    StepShape(s.dir, p, tmp);
    OthersTemps(o, s, d, b, p, p', other);
    if RequestOf(other).Target().Some? && Between(other, RequestOf(other).Target().value) {
      var n := RequestOf(other).Target().value;
      PhaseIsHalfway(o, DirOf(d, b), s.dir, other, n);
      if Between(p, n) {
        PhaseIsHalfway(o, DirOf(d, b), s.dir, p, n);
      }
      OthersBody(s, o, id, tmp, q, n);
    }
    if other.DeleteMeta? {
      OthersDelete(o, s, d, b, id, p', q);
    }
  }

  lemma QuietAdvance(o: Order, s: State, d: Disk, b: Str, id: nat, tmp: Str)
    requires Inv(s) && Fitting(o, s.procs) && Quiet(o, s, DirOf(d, b))
    requires Enabled(s, Advance(id, tmp)) && !s.procs[id].Ended? && !RequestOf(s.procs[id]).DropBucket?
    ensures Quiet(o, Next(s, Advance(id, tmp)), DirOf(Placed(o, d, b, s, Advance(id, tmp)), b))
  {
    hide Inv, Step, Phase, SameShape, IsTempName, FreeBody, FreeMeta, Placed, DirOf, Fitting, SameEntry;
    var a := Advance(id, tmp);
    var s', x' := Next(s, a), DirOf(Placed(o, d, b, s, a), b);
    OwnFollows(o, s, d, b, id, tmp);
    assert NoLateDrop(s'.procs);
    forall f | FreeBody(o, s'.procs, f) ensures SameEntry(Objects(x'), Objects(s'.dir), f) {
      BodiesFollow(o, s, d, b, id, tmp, f);
    }
    forall f | FreeMeta(o, s'.procs, f) ensures SameEntry(Sidecars(x'), Sidecars(s'.dir), f) {
      SidecarsFollow(o, s, d, b, id, tmp, f);
    }
    forall q | q in s'.procs ensures Phase(o, x', s'.dir, s'.procs[q]) {
      if q != id {
        OthersPhase(o, s, d, b, id, tmp, q);
      }
    }
  }

  // ---- Bucket deletions ----

  lemma DropTemp(dir: Dir, p: Proc, tmp: Str)
    requires RequestOf(p).DropBucket?
    ensures Step(dir, p, tmp) == Step(dir, p, [])
  {
  }

  lemma HandsFreeHolds(o: Order, p: Proc, f: Str)
    requires HandsFree(p)
    ensures !HoldsBody(o, p, f) && !HoldsMeta(o, p, f)
  {
  }

  /** As long as no request has changed anything, the two buckets are the same. */
  lemma SameDirs(o: Order, s: State, x: Dir)
    requires Quiet(o, s, x) && AllHandsFree(s.procs)
    ensures x == s.dir
  {
    hide Phase, HoldsBody, HoldsMeta, HandsFree;
    forall f ensures SameEntry(Objects(x), Objects(s.dir), f) && SameEntry(Sidecars(x), Sidecars(s.dir), f) {
      forall q | q in s.procs ensures !HoldsBody(o, s.procs[q], f) && !HoldsMeta(o, s.procs[q], f) {
        HandsFreeHolds(o, s.procs[q], f);
      }
      assert FreeBody(o, s.procs, f) && FreeMeta(o, s.procs, f);
    }
    SameMaps(Objects(x), Objects(s.dir));
    SameMaps(Sidecars(x), Sidecars(s.dir));
  }

  lemma SameMaps<T>(x: map<Str, T>, y: map<Str, T>)
    requires forall f :: SameEntry(x, y, f)
    ensures x == y
  {
    forall f ensures f in x <==> f in y {
      assert SameEntry(x, y, f);
    }
    forall f | f in x ensures x[f] == y[f] {
      assert SameEntry(x, y, f);
    }
  }

  /** A process that has not taken a step. */
  predicate Untaken(p: Proc) {
    p.Ended? || p.PutCheck? || p.DeleteBody? || p.BucketCheck?
  }

  ghost predicate AllUntaken(procs: map<nat, Proc>) {
    forall id :: id in procs ==> Untaken(procs[id])
  }

  lemma EqualIsQuiet(o: Order, s: State)
    requires AllUntaken(s.procs)
    ensures Quiet(o, s, s.dir)
  {
    hide Received;
  }

  lemma LooksAlone(s: State, id: nat)
    requires id in s.procs && s.procs[id].BucketEmpty? && ToItself(s, id)
    ensures AllHandsFree(s.procs)
  {
  }

  /** A bucket deletion that sees an object, in one bucket, is refused in the other. */
  lemma ObjectInBoth(o: Order, s: State, x: Dir)
    requires Quiet(o, s, x) && ShowsObject(s)
    ensures Objects(x) != map[] && Objects(s.dir) != map[]
  {
    hide Phase, SameShape;
    var g :| g in Objects(s.dir) && Untouched(s.procs, g);
    assert FreeBody(o, s.procs, g);
    assert SameEntry(Objects(x), Objects(s.dir), g);
  }

  lemma DropOf(d: Disk, b: Str)
    ensures b !in d.buckets ==> Sequentially(d, b, DropBucket) == (d, Failure(NoSuchBucket))
    ensures b in d.buckets && Objects(DirOf(d, b)) != map[] ==>
      Sequentially(d, b, DropBucket) == (d, Failure(BucketNotEmpty))
  {
  }

  ghost predicate DropKept(o: Order, s: State, d: Disk, b: Str, id: nat, tmp: Str)
    requires Enabled(s, Advance(id, tmp))
  {
    var (a, s') := (Advance(id, tmp), Next(s, Advance(id, tmp)));
    && Placed(o, d, b, s, a) == d
    && (Commits(o, s, a) != [] ==> Commits(o, s, a)[0].outcome == Sequentially(d, b, DropBucket).1)
    && (Quiet(o, s', DirOf(d, b)) || DroppedBy(s', DirOf(d, b), id))
  }

  lemma StaysQuiet(o: Order, s: State, x: Dir, id: nat, s': State)
    requires Quiet(o, s, x) && id in s.procs && RequestOf(s.procs[id]).DropBucket?
    requires id in s'.procs && s'.dir == s.dir && s'.procs == s.procs[id := s'.procs[id]]
    requires RequestOf(s'.procs[id]).DropBucket?
    requires !LateDrop(s'.procs[id]) && (s'.procs[id].BucketEmpty? ==> s.dir.Some?)
    ensures Quiet(o, s', x)
  {
    hide SameShape, FreeBody, FreeMeta, SameEntry, Phase, HoldsBody, HoldsMeta;
    SameHolders(o, s, s', id);
    DropPhase(o, x, s.dir, s'.procs[id]);
  }

  lemma EarlyDropCheck(o: Order, s: State, d: Disk, b: Str, id: nat, tmp: Str)
    requires Quiet(o, s, DirOf(d, b)) && Enabled(s, Advance(id, tmp)) && s.procs[id].BucketCheck?
    ensures DropKept(o, s, d, b, id, tmp)
  {
    hide SameShape, IsTempName, FreeBody, FreeMeta, SameEntry, Finish, Phase, HoldsBody, HoldsMeta, Sequentially, Quiet;
    DropOf(d, b);
    QuietShape(o, s, DirOf(d, b));
    StaysQuiet(o, s, DirOf(d, b), id, Next(s, Advance(id, tmp)));
  }

  lemma QuietShape(o: Order, s: State, x: Dir)
    requires Quiet(o, s, x)
    ensures x.Some? <==> s.dir.Some?
    ensures forall id :: id in s.procs && s.procs[id].BucketEmpty? ==> s.dir.Some?
  {
    forall id | id in s.procs && s.procs[id].BucketEmpty? ensures s.dir.Some? {
      assert Phase(o, x, s.dir, s.procs[id]);
    }
  }

  lemma EarlyDropLook(o: Order, s: State, d: Disk, b: Str, id: nat, tmp: Str)
    requires Quiet(o, s, DirOf(d, b)) && Enabled(s, Advance(id, tmp)) && s.procs[id].BucketEmpty?
    requires ToItself(s, id) || ShowsObject(s) || (Objects(s.dir) != map[] && Objects(DirOf(d, b)) != map[])
    ensures DropKept(o, s, d, b, id, tmp)
  {
    hide SameShape, IsTempName, FreeBody, FreeMeta, SameEntry, Finish, Phase, HoldsBody, HoldsMeta, Sequentially, Quiet;
    var x, s' := DirOf(d, b), Next(s, Advance(id, tmp));
    DropOf(d, b);
    QuietShape(o, s, x);
    if ToItself(s, id) {
      LooksAlone(s, id);
      SameDirs(o, s, x);
    } else if ShowsObject(s) {
      ObjectInBoth(o, s, x);
    }
    if Objects(s.dir) == map[] {
      OneStep(s.dir, BucketCheck, [], s.dir, BucketEmpty);
      OneStep(s.dir, BucketEmpty, [], s.dir, BucketObjects);
    } else {
      StaysQuiet(o, s, x, id, s');
    }
  }

  lemma DropPhase(o: Order, x: Dir, y: Dir, p: Proc)
    ensures Phase(o, x, y, p) && p.BucketEmpty? ==> y.Some?
    ensures RequestOf(p).DropBucket? && (p.BucketEmpty? ==> y.Some?) ==> Phase(o, x, y, p)
  {
    hide Received;
  }

  /** Exchanging one process that holds nothing for another. */
  lemma SameHolders(o: Order, s: State, s': State, id: nat)
    requires id in s.procs && RequestOf(s.procs[id]).DropBucket? && s'.procs.Keys == s.procs.Keys
    requires RequestOf(s'.procs[id]).DropBucket?
    requires forall q :: q in s.procs && q != id ==> s'.procs[q] == s.procs[q]
    ensures forall f :: FreeBody(o, s'.procs, f) <==> FreeBody(o, s.procs, f)
    ensures forall f :: FreeMeta(o, s'.procs, f) <==> FreeMeta(o, s.procs, f)
  {
    hide HoldsBody, HoldsMeta;
    DropHoldsNothing(o, s.procs[id]);
    DropHoldsNothing(o, s'.procs[id]);
    assert forall q :: q in s'.procs <==> q in s.procs.Keys;
    forall f ensures FreeBody(o, s'.procs, f) <==> FreeBody(o, s.procs, f) {
      assert forall q :: q in s.procs ==> (HoldsBody(o, s.procs[q], f) <==> HoldsBody(o, s'.procs[q], f));
    }
    forall f ensures FreeMeta(o, s'.procs, f) <==> FreeMeta(o, s.procs, f) {
      assert forall q :: q in s.procs ==> (HoldsMeta(o, s.procs[q], f) <==> HoldsMeta(o, s'.procs[q], f));
    }
  }

  lemma DropHoldsNothing(o: Order, p: Proc)
    requires RequestOf(p).DropBucket?
    ensures forall f :: !HoldsBody(o, p, f) && !HoldsMeta(o, p, f)
  {
  }

  lemma DropAdvance(o: Order, s: State, d: Disk, b: Str, id: nat, tmp: Str)
    requires DroppedBy(s, DirOf(d, b), id) && Enabled(s, Advance(id, tmp))
    ensures var (a, s') := (Advance(id, tmp), Next(s, Advance(id, tmp)));
      var x' := DirOf(Placed(o, d, b, s, a), b);
      if s'.procs[id].Ended? then
        Quiet(o, s', x') && s'.procs[id].outcome == Sequentially(d, b, RequestOf(s.procs[id])).1
      else DroppedBy(s', x', id)
  {
    hide Step, IsTempName, DirOf, Quiet;
    var p, s' := s.procs[id], Next(s, Advance(id, tmp));
    DropTemp(s.dir, p, tmp);
    SameRequest(s.dir, p, tmp);
    DropRemovesNoFile(s.dir, p, tmp);
    OneStep(s.dir, p, [], s'.dir, s'.procs[id]);
    StaysLate(s.dir, p, tmp);
    if s'.procs[id].Ended? {
      FinishEnded([]);
      DropAlone(d, b, []);
      EqualIsQuiet(o, s');
    }
  }

  lemma StaysLate(dir: Dir, p: Proc, tmp: Str)
    requires LateDrop(p)
    ensures Step(dir, p, tmp).1.Ended? || LateDrop(Step(dir, p, tmp).1)
    ensures !Step(dir, p, tmp).1.DeleteMeta? && !p.DeleteMeta?
  {
  }

  // ---- Along a run ----

  lemma EndedStays(s: State, a: Action)
    requires Enabled(s, a) && a.Advance?
    ensures s.procs[a.id].Ended? ==> Next(s, a) == s
  {
    if s.procs[a.id].Ended? {
      EndedChangesNothing(s.dir, s.procs[a.id], a.tmp);
      assert s.procs[a.id := s.procs[a.id]] == s.procs;
    }
  }

  lemma ActiveBefore(s: State, a: Action, p: nat, n: Str)
    requires Enabled(s, a) && p in Next(s, a).procs && ActiveOn(Next(s, a).procs[p], n)
    ensures
      || (p in s.procs && ActiveOn(s.procs[p], n) && RequestOf(s.procs[p]) == RequestOf(Next(s, a).procs[p]))
      || (a.Arrive? && a.id == p && a.request.Target() == Some(n) && RequestOf(Next(s, a).procs[p]) == a.request)
  {
    hide Step, IsTempName, EncodeKey;
    if a.Advance? {
      SameRequest(s.dir, s.procs[a.id], a.tmp);
      EndedStays(s, a);
    }
  }

  lemma FitsBoth(o: Order, x: Request, y: Request)
    ensures Fits(o, x, y) <==> Fits(o, y, x)
  {
    hide Received;
  }

  lemma FittingNext(o: Order, s: State, a: Action)
    requires Fitting(o, s.procs) && Enabled(s, a) && Mannerly(o, s, a)
    ensures Fitting(o, Next(s, a).procs)
  {
    hide Next, ActiveOn, Fits, AllHandsFree, NoLateDrop;
    var procs' := Next(s, a).procs;
    forall p, q, n | p in procs' && q in procs' && p != q && ActiveOn(procs'[p], n) && ActiveOn(procs'[q], n)
      ensures Fits(o, RequestOf(procs'[p]), RequestOf(procs'[q]))
    {
      ActiveBefore(s, a, p, n);
      ActiveBefore(s, a, q, n);
      FitsBoth(o, RequestOf(procs'[p]), RequestOf(procs'[q]));
    }
  }

  lemma QuietArrive(o: Order, s: State, x: Dir, id: nat, request: Request)
    requires Quiet(o, s, x) && Enabled(s, Arrive(id, request))
    ensures Quiet(o, Next(s, Arrive(id, request)), x)
  {
    hide EncodeKey, IsTempName, SameShape, FreeBody, FreeMeta, SameEntry, Phase;
    var s' := Next(s, Arrive(id, request));
    FirstHoldsNothing(o, x, s.dir, request);
    forall f | FreeBody(o, s'.procs, f) ensures SameEntry(Objects(x), Objects(s'.dir), f) {
      FreeBefore(o, s, id, request, f);
    }
    forall f | FreeMeta(o, s'.procs, f) ensures SameEntry(Sidecars(x), Sidecars(s'.dir), f) {
      FreeBefore(o, s, id, request, f);
    }
  }

  lemma FirstHoldsNothing(o: Order, x: Dir, y: Dir, request: Request)
    ensures Phase(o, x, y, First(request)) && !LateDrop(First(request))
  {
    hide Received;
  }

  lemma FreeBefore(o: Order, s: State, id: nat, request: Request, f: Str)
    requires Enabled(s, Arrive(id, request))
    ensures FreeBody(o, Next(s, Arrive(id, request)).procs, f) ==> FreeBody(o, s.procs, f)
    ensures FreeMeta(o, Next(s, Arrive(id, request)).procs, f) ==> FreeMeta(o, s.procs, f)
  {
    hide EncodeKey, HoldsBody, HoldsMeta;
    var s' := Next(s, Arrive(id, request));
    assert forall q :: q in s.procs ==> q in s'.procs && s'.procs[q] == s.procs[q];
  }

  /** A bucket deletion that removes directories is the only request at work. */
  lemma DroppingIsAlone(s: State, x: Dir, id: nat)
    requires DroppedBy(s, x, id)
    ensures !AllHandsFree(s.procs) && !NoLateDrop(s.procs)
  {
    hide Finish;
  }

  lemma CrashAtRest(o: Order, s: State, x: Dir)
    requires Quiet(o, s, x) && AllHandsFree(s.procs)
    ensures Quiet(o, Next(s, Crash), x)
  {
    SameDirs(o, s, x);
    EqualIsQuiet(o, Next(s, Crash));
  }

  lemma BystanderSteps(d: Disk, b: Str, dir: Dir, p: Proc, tmp: Str)
    requires Bystander(p) && !p.Ended? && RequestOf(p).Named()
    requires Objects(dir) == map[] && Objects(DirOf(d, b)) == map[]
    ensures Step(dir, p, tmp) == (dir, Ended(RequestOf(p), Failure(NoSuchKey)))
    ensures Sequentially(d, b, RequestOf(p)) == (d, Failure(NoSuchKey))
  {
    hide EncodeKey;
  }

  lemma DroppingNext(o: Order, s: State, d: Disk, b: Str, id: nat, a: Action)
    requires Inv(s) && DroppedBy(s, DirOf(d, b), id) && Enabled(s, a) && a.Advance?
    ensures var x' := DirOf(Placed(o, d, b, s, a), b); Quiet(o, Next(s, a), x') || Dropping(Next(s, a), x')
    ensures Commits(o, s, a) != [] ==> Commits(o, s, a)[0].outcome == Sequentially(d, b, Commits(o, s, a)[0].request).1
  {
    hide DirOf, Sequentially, Step, IsTempName, Quiet, OwnTemps, OwnDirs, EncodeKey, DirOrder, Distinct;
    if a.id == id {
      DropAdvance(o, s, d, b, id, a.tmp);
      StaysLate(s.dir, s.procs[id], a.tmp);
    } else if s.procs[a.id].Ended? {
      EndedStays(s, a);
      assert DroppedBy(Next(s, a), DirOf(d, b), id);
    } else {
      Named(s, a.id);
      BystanderSteps(d, b, s.dir, s.procs[a.id], a.tmp);
      assert DroppedBy(Next(s, a), DirOf(d, b), id);
    }
  }

  lemma Named(s: State, id: nat)
    requires Inv(s) && id in s.procs
    ensures RequestOf(s.procs[id]).Named()
  {
    hide EncodeKey, IsTempName, OwnDirs, DirOrder, Distinct;
    assert OwnTemps(s.dir, s.procs[id]);
  }

  lemma QuietNext(o: Order, s: State, d: Disk, b: Str, id: nat, tmp: Str, kept: Option<Str>)
    requires Inv(s) && Fitting(o, s.procs) && Quiet(o, s, DirOf(d, b)) && Keeps(s, DirOf(d, b), kept)
    requires Enabled(s, Advance(id, tmp)) && Civil(o, s, Advance(id, tmp), kept)
    ensures var (a, s') := (Advance(id, tmp), Next(s, Advance(id, tmp)));
      var x' := DirOf(Placed(o, d, b, s, a), b);
      && (Quiet(o, s', x') || Dropping(s', x'))
      && (Commits(o, s, a) != [] ==>
           Commits(o, s, a)[0].outcome == Sequentially(d, b, Commits(o, s, a)[0].request).1)
  {
    hide Inv, Fitting, Quiet, DroppedBy, DirOf, Sequentially, Step, IsTempName, ToItself, ShowsObject;
    var p := s.procs[id];
    if p.Ended? {
      EndedStays(s, Advance(id, tmp));
    } else if RequestOf(p).DropBucket? {
      QuietHasNoLate(o, s, DirOf(d, b), id);
      if p.BucketCheck? {
        EarlyDropCheck(o, s, d, b, id, tmp);
      } else {
        EarlyDropLook(o, s, d, b, id, tmp);
      }
    } else {
      QuietAdvance(o, s, d, b, id, tmp);
      OwnFollows(o, s, d, b, id, tmp);
    }
  }

  lemma QuietHasNoLate(o: Order, s: State, x: Dir, id: nat)
    requires Quiet(o, s, x) && id in s.procs
    ensures !LateDrop(s.procs[id])
  {
  }

  /** A kept object stays. */
  lemma KeepsObject(o: Order, s: State, d: Disk, b: Str, id: nat, tmp: Str, kept: Str)
    requires Inv(s) && Keeps(s, DirOf(d, b), Some(kept)) && Enabled(s, Advance(id, tmp))
    ensures kept in Objects(Next(s, Advance(id, tmp)).dir)
    ensures kept in Objects(DirOf(Placed(o, d, b, s, Advance(id, tmp)), b))
  {
    hide Step, OwnDirs, DirOrder, Distinct, IsTempName, EncodeKey, Sequentially, DirOf;
    var p := s.procs[id];
    assert OwnTemps(s.dir, p);
    if p.Ended? {
      EndedChangesNothing(s.dir, p, tmp);
    } else {
      StepRemovesOnlyOwn(s.dir, p, tmp, kept);
      if RequestOf(p).DropBucket? {
        DropRemovesNoFile(s.dir, p, tmp);
        DropOf(d, b);
        NoObjectsNoBucket(d, b);
      } else {
        PlacingFrame(o, d, b, p, Step(s.dir, p, tmp).1, kept);
      }
    }
  }

  lemma NoObjectsNoBucket(d: Disk, b: Str)
    ensures b !in d.buckets ==> Objects(DirOf(d, b)) == map[]
  {
  }

  lemma KeepsNext(o: Order, s: State, d: Disk, b: Str, a: Action, kept: Option<Str>)
    requires Inv(s) && Keeps(s, DirOf(d, b), kept) && Enabled(s, a) && Civil(o, s, a, kept)
    ensures Keeps(Next(s, a), DirOf(Placed(o, d, b, s, a), b), kept)
  {
    hide Step, Inv, IsTempName, EncodeKey, DirOf, Placing, ToItself, ShowsObject, Mannerly, NoLateDrop;
    if kept.Some? {
      match a
      case Arrive(id, request) => FirstServes(request);
      case Crash =>
      case Advance(id, tmp) =>
        KeepsObject(o, s, d, b, id, tmp, kept.value);
        SameRequest(s.dir, s.procs[id], tmp);
        if s.procs[id].Ended? {
          EndedStays(s, a);
        }
    }
  }

  lemma FirstServes(request: Request)
    ensures RequestOf(First(request)) == request
  {
  }

  lemma FollowsNext(o: Order, s: State, d: Disk, b: Str, a: Action, kept: Option<Str>)
    requires Follows(o, s, DirOf(d, b), kept) && Enabled(s, a) && Civil(o, s, a, kept)
    ensures Follows(o, Next(s, a), DirOf(Placed(o, d, b, s, a), b), kept)
    ensures Commits(o, s, a) != [] ==> Commits(o, s, a)[0].outcome == Sequentially(d, b, Commits(o, s, a)[0].request).1
  {
    hide Inv, Fitting, Quiet, DirOf, Sequentially, Step, NoLateDrop, IsTempName, EncodeKey, HandsFree, Finish;
    hide ToItself, ShowsObject, Placing, Commit, LateDrop;
    var x := DirOf(d, b);
    InvNext(s, a);
    FittingNext(o, s, a);
    KeepsNext(o, s, d, b, a, kept);
    if Quiet(o, s, x) {
      match a
      case Arrive(id, request) => QuietArrive(o, s, x, id, request);
      case Advance(id, tmp) => QuietNext(o, s, d, b, id, tmp, kept);
      case Crash => CrashAtRest(o, s, x);
    } else {
      var id :| DroppedBy(s, x, id);
      DroppingIsAlone(s, x, id);
      DroppingNext(o, s, d, b, id, a);
    }
  }

  lemma {:induction false} FollowsAlways(o: Order, s: State, d: Disk, b: Str, acts: seq<Action>, kept: Option<Str>)
    returns (d': Disk)
    requires Follows(o, s, DirOf(d, b), kept) && Possible(s, acts) && CivilRun(o, s, acts, kept)
    ensures Replays(d, b, Completed(o, s, acts), d')
    ensures Follows(o, Exec(s, acts), DirOf(d', b), kept)
    decreases |acts|
  {
    hide Follows, Enabled, Next, Civil, Sequentially, DirOf, Commit;
    if acts == [] {
      d' := d;
    } else {
      FollowsNext(o, s, d, b, acts[0], kept);
      d' := FollowsAlways(o, Next(s, acts[0]), Placed(o, d, b, s, acts[0]), b, acts[1..], kept);
      var now, rest := Commits(o, s, acts[0]), Completed(o, Next(s, acts[0]), acts[1..]);
      if now != [] {
        assert (now + rest)[1..] == rest;
      } else {
        assert now + rest == rest;
      }
    }
  }
}
