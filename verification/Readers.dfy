/** Reads among writers: get_object reads the sidecar and then opens the body, and anything may happen
    in between. A body, once open, is one file for good: no step writes to a named file. Covers
    get_object of crates/storage/src/fs.rs:408-459. */
module Readers {
  import opened Wrappers
  import opened Bytes
  import opened KeyEncoding
  import opened Meta
  import opened Ranges
  import opened DiskOps
  import opened Interleaving
  import opened Agreement
  import opened Alone
  import opened Overlaps
  import ObjectMap

  /** The answer of a read that finds `meta` when it reads the sidecar and `body` when it opens it. */
  function Get(meta: Dir, body: Dir, key: Str, range: Option<ByteRange>): Result<(ObjectMeta, Str)> {
    var name :- EncodeKey(key);
    var m :- ReadSidecar(Sidecars(meta), SidecarName(name));
    if range.Some? && Resolve(range.value, m.size).None? then Failure(RangeNotSatisfiable)
    else if name !in Objects(body) then Failure(NoSuchKey)
    else if range.None? then Success((m, Objects(body)[name]))
    else
      var w := Resolve(range.value, m.size).value;
      Success((m, Window(Objects(body)[name], w.start, w.length)))
  }

  /** When nothing happens in between, this is the read of the sequential store. */
  lemma GetAlone(d: Disk, b: Str, key: Str, range: Option<ByteRange>)
    ensures Get(DirOf(d, b), DirOf(d, b), key, range) == DiskOps.GetObject(d, b, key, range)
  {
    hide EncodeKey, Resolve;
  }

  lemma GetOwnFiles(meta: Dir, body: Dir, body': Dir, key: Str, range: Option<ByteRange>)
    requires EncodeKey(key).Success? ==> SameFiles(body, body', EncodeKey(key).value)
    ensures Get(meta, body, key, range) == Get(meta, body', key, range)
  {
    hide EncodeKey, Resolve;
  }

  lemma EncodedNoTemp(key: Str)
    requires EncodeKey(key).Success?
    ensures !IsTempName(EncodeKey(key).value)
  {
    EncodedNames(key, key);
  }

  /** A read during which no request works on its key or arrives for it answers from one moment,
      whatever happens to other keys and buckets, and even if the writers die in between. */
  lemma UndisturbedRead(s: State, acts: seq<Action>, key: Str, range: Option<ByteRange>)
    requires Inv(s) && Possible(s, acts)
    requires EncodeKey(key).Success? ==> Idle(s, EncodeKey(key).value) && Spared(acts, EncodeKey(key).value)
    ensures Get(s.dir, Exec(s, acts).dir, key, range) == Get(s.dir, s.dir, key, range)
  {
    hide Inv, Exec, Possible, EncodeKey, IsTempName, Get, SameFiles;
    if EncodeKey(key).Success? {
      EncodedNoTemp(key);
      FilesPersist(s, acts, EncodeKey(key).value);
    }
    GetOwnFiles(s.dir, s.dir, Exec(s, acts).dir, key, range);
  }

  /** Whatever happens, before, between and with crashes: what a read answers is the metadata of one
      complete put and the body of one complete put, or those of the start. */
  lemma ReadsWholePuts(s: State, before: seq<Action>, between: seq<Action>, key: Str)
    requires Initial(s) && Possible(s, before) && Possible(Exec(s, before), between)
    requires Get(Exec(s, before).dir, Exec(Exec(s, before), between).dir, key, None).Success?
    ensures EncodeKey(key).Success?
    ensures var name := EncodeKey(key).value;
      var (m, body) := Get(Exec(s, before).dir, Exec(Exec(s, before), between).dir, key, None).value;
      && ((SidecarName(name) in Sidecars(s.dir) && Sidecars(s.dir)[SidecarName(name)] == Json(m))
          || exists id, put :: Arrive(id, PutKey(put)) in before && put.name == name
                               && Received(put.chunks).Some? && m == put.Recorded())
      && ((name in Objects(s.dir) && Objects(s.dir)[name] == body)
          || exists id, put :: Arrive(id, PutKey(put)) in before + between && put.name == name
                               && Received(put.chunks) == Some(body))
  {
    hide Exec, Possible, EncodeKey, IsTempName, Received, SidecarName, Inv;
    var name := EncodeKey(key).value;
    var s1 := Exec(s, before);
    var (m, body) := Get(s1.dir, Exec(s1, between).dir, key, None).value;
    EncodedNoTemp(key);
    SidecarNoTemp(name);
    LeadsOn(s, before, s1, between, Exec(s1, between));
    AtomicVisibility(s, before, SidecarName(name));
    AtomicVisibility(s, before + between, name);
    if !(SidecarName(name) in Sidecars(s.dir) && Sidecars(s.dir)[SidecarName(name)] == Json(m)) {
      var id, put :| Arrive(id, PutKey(put)) in before && SidecarName(put.name) == SidecarName(name)
        && Received(put.chunks).Some? && Sidecars(s1.dir)[SidecarName(name)] == Json(put.Recorded());
      StemOfSidecar(put.name);
      StemOfSidecar(name);
    }
  }

  // ---- Metadata and body of one read ----

  /** All there is to read of the key, now and from the puts at work, are these bytes. */
  ghost predicate OneBody(s: State, n: Str, v: Str) {
    && (n in Objects(s.dir) ==> Objects(s.dir)[n] == v)
    && (forall id :: id in s.procs && ActiveOn(s.procs[id], n) ==> Brings(RequestOf(s.procs[id]), v))
  }

  predicate Brings(r: Request, v: Str) {
    Delivers(r) ==> Received(r.put.chunks) == Some(v)
  }

  ghost predicate BodyInv(s: State, n: Str, v: Str) {
    && Inv(s) && OneBody(s, n, v)
    && (SidecarName(n) in Sidecars(s.dir) ==> Tells(Sidecars(s.dir)[SidecarName(n)], v))
  }

  predicate Tells(sidecar: Sidecar, v: Str) {
    sidecar.Json? && ObjectMap.Describes(sidecar.meta, v)
  }

  lemma StepBrings(dir: Dir, p: Proc, tmp: Str, n: Str, v: Str)
    requires OwnTemps(dir, p) && Fresh(dir, tmp) && !IsTempName(n) && n != []
    requires n in Objects(dir) ==> Objects(dir)[n] == v
    requires SidecarName(n) in Sidecars(dir) ==> Tells(Sidecars(dir)[SidecarName(n)], v)
    requires ActiveOn(p, n) ==> Brings(RequestOf(p), v)
    ensures var dir' := Step(dir, p, tmp).0;
      && (n in Objects(dir') ==> Objects(dir')[n] == v)
      && (SidecarName(n) in Sidecars(dir') ==> Tells(Sidecars(dir')[SidecarName(n)], v))
  {
    hide EncodeKey, IsTempName, Received, Step, SidecarName;
    SidecarNoTemp(n);
    StemOfSidecar(n);
    if RequestOf(p).Target().Some? {
      StemOfSidecar(RequestOf(p).Target().value);
    }
    StepWritesWhole(dir, p, tmp, n);
    StepWritesWhole(dir, p, tmp, SidecarName(n));
  }

  lemma BodyNext(s: State, a: Action, n: Str, v: Str)
    requires BodyInv(s, n, v) && Enabled(s, a) && !IsTempName(n) && n != []
    requires a.Arrive? && a.request.Target() == Some(n) ==> Brings(a.request, v)
    ensures BodyInv(Next(s, a), n, v)
  {
    hide Step, OwnTemps, OwnDirs, DirOrder, Distinct, EncodeKey, IsTempName, Brings, Tells, SidecarName;
    InvNext(s, a);
    if a.Advance? {
      var p, s' := s.procs[a.id], Next(s, a);
      StepBrings(s.dir, p, a.tmp, n, v);
      SameRequest(s.dir, p, a.tmp);
      if p.Ended? {
        EndedChangesNothing(s.dir, p, a.tmp);
      }
    } else if a.Arrive? {
      FirstIsEarly(a.request, n);
    }
  }

  /** Requests that arrive for the key, if they deliver, deliver these bytes. */
  ghost predicate AllBring(acts: seq<Action>, n: Str, v: Str) {
    forall a :: a in acts && a.Arrive? && a.request.Target() == Some(n) ==> Brings(a.request, v)
  }

  lemma {:induction false} BodyAlways(s: State, acts: seq<Action>, n: Str, v: Str)
    requires BodyInv(s, n, v) && Possible(s, acts) && AllBring(acts, n, v) && !IsTempName(n) && n != []
    ensures BodyInv(Exec(s, acts), n, v)
    decreases |acts|
  {
    hide BodyInv, Next, Enabled, Brings;
    if acts != [] {
      assert acts[0] in acts;
      BodyNext(s, acts[0], n, v);
      BodyAlways(Next(s, acts[0]), acts[1..], n, v);
    }
  }

  /** The read finds both files, and they do not belong together. */
  predicate Misread(meta: Dir, body: Dir, n: Str) {
    SidecarName(n) in Sidecars(meta) && n in Objects(body) && !Tells(Sidecars(meta)[SidecarName(n)], Objects(body)[n])
  }

  /** Some schedule, without a further request for the key, makes a read go wrong. */
  ghost predicate CanMisread(s: State, n: Str) {
    exists before, between :: MisreadAt(s, before, between, n)
  }

  ghost predicate MisreadAt(s: State, before: seq<Action>, between: seq<Action>, n: Str) {
    && Possible(s, before) && Spared(before, n)
    && Possible(Exec(s, before), between) && Spared(between, n)
    && Misread(Exec(s, before).dir, Exec(Exec(s, before), between).dir, n)
  }

  lemma SparedBrings(acts: seq<Action>, n: Str, v: Str)
    requires Spared(acts, n)
    ensures AllBring(acts, n, v)
  {
    hide Brings;
  }

  lemma OneBodyNeverMisread(s: State, before: seq<Action>, between: seq<Action>, n: Str, v: Str)
    requires Inv(s) && Agree(s.dir, n) && OneBody(s, n, v) && !IsTempName(n) && n != []
    ensures !MisreadAt(s, before, between, n)
  {
    hide Inv, Exec, Possible, IsTempName, SidecarName, Spared, Brings;
    if MisreadAt(s, before, between, n) {
      SparedBrings(before, n, v);
      SparedBrings(between, n, v);
      BodyAlways(s, before, n, v);
      BodyAlways(Exec(s, before), between, n, v);
    }
  }

  /** A put replaces the body after the read has its metadata. */
  lemma ReplacedUnderRead(s: State, id: nat, put: PutReq, was: Str, t: Str, u: Str)
    returns (between: seq<Action>)
    requires id in s.procs && s.procs[id] == PutCheck(put) && put.Named() && put.name != []
    requires Received(put.chunks).Some? && Received(put.chunks).value != was
    requires HasObjects(s.dir) && TwoTemps(s.dir, t, u)
    requires SidecarName(put.name) in Sidecars(s.dir) && Tells(Sidecars(s.dir)[SidecarName(put.name)], was)
    ensures Possible(s, between) && OnlySteps(between) && Misread(s.dir, Exec(s, between).dir, put.name)
  {
    hide EncodeKey, IsTempName, Takes, Possible, Exec, Received, BodyTemps, Advances, SidecarName, OnlySteps;
    PlacesBody(s.dir, put, t, u);
    between := Advances(id, BodyTemps(put, t, u));
    AdvancesAreSteps(id, BodyTemps(put, t, u));
    var dir := SetObjects(s.dir, Objects(s.dir)[put.name := Received(put.chunks).value]);
    TakesLeads(s, id, BodyTemps(put, t, u), dir, MetaCreate(put));
  }

  /** One put runs through, the read takes its metadata, another put replaces the body. */
  lemma ReplacedAfterPut(s: State, first: nat, put: PutReq, second: nat, put': PutReq, t: Str, u: Str)
    returns (before: seq<Action>, between: seq<Action>)
    requires first in s.procs && second in s.procs && first != second
    requires s.procs[first] == PutCheck(put) && s.procs[second] == PutCheck(put')
    requires put.Named() && put'.Named() && put.name == put'.name != []
    requires Received(put.chunks).Some? && Received(put'.chunks).Some? && Received(put.chunks) != Received(put'.chunks)
    requires HasObjects(s.dir) && HasMeta(s.dir) && TwoTemps(s.dir, t, u)
    ensures MisreadAt(s, before, between, put.name)
  {
    hide EncodeKey, IsTempName, Step, Takes, Possible, Exec, Received, BodyTemps, Advances, SidecarName, OnlySteps;
    hide Spared;
    var body := Received(put.chunks).value;
    var dir1 := SetObjects(s.dir, Objects(s.dir)[put.name := body]);
    var dir2 := SetMeta(dir1, Sidecars(dir1)[SidecarName(put.name) := Json(put.Recorded())]);
    StillFresh(s.dir, dir1, PutKey(put), t, u);
    StillFresh(s.dir, dir2, PutKey(put), t, u);
    PlacesBody(s.dir, put, t, u);
    PlacesSidecar(dir1, put, t, u);
    var s1 := State(dir1, s.procs[first := MetaCreate(put)]);
    var s2 := State(dir2, s1.procs[first := Ended(PutKey(put), Success(()))]);
    TakesLeads(s, first, BodyTemps(put, t, u), dir1, MetaCreate(put));
    TakesLeads(s1, first, [t, u, u], dir2, Ended(PutKey(put), Success(())));
    before := Advances(first, BodyTemps(put, t, u)) + Advances(first, [t, u, u]);
    LeadsOn(s, Advances(first, BodyTemps(put, t, u)), s1, Advances(first, [t, u, u]), s2);
    AdvancesAreSteps(first, BodyTemps(put, t, u));
    AdvancesAreSteps(first, [t, u, u]);
    BothSteps(Advances(first, BodyTemps(put, t, u)), Advances(first, [t, u, u]));
    between := ReplacedUnderRead(s2, second, put', body, t, u);
    StepsSpare(before, put.name);
    StepsSpare(between, put.name);
  }

  lemma BothSteps(a: seq<Action>, b: seq<Action>)
    requires OnlySteps(a) && OnlySteps(b)
    ensures OnlySteps(a + b)
  {
  }

  /** Requests for one key that have not begun. Some schedule makes a read of the key answer the
      metadata of one body with another body, exactly when there is more than one body about: the one
      in place and those the puts deliver are not all the same. Deletes make no difference. */
  lemma MisreadExactly(s: State, n: Str, t: Str, u: Str)
    requires Inv(s) && AllAtStart(s, n) && Agree(s.dir, n) && !IsTempName(n) && n != []
    requires HasObjects(s.dir) && TwoTemps(s.dir, t, u)
    ensures CanMisread(s, n) <==> !exists v :: OneBody(s, n, v)
  {
    hide Inv, Agree, MisreadAt, TwoTemps, IsTempName, OneBody;
    if v :| OneBody(s, n, v) {
      forall before, between ensures !MisreadAt(s, before, between, n) {
        OneBodyNeverMisread(s, before, between, n, v);
      }
    } else if n in Objects(s.dir) {
      OldAndNew(s, n, t, u);
    } else {
      TwoNew(s, n, t, u);
    }
  }

  lemma OtherBody(s: State, n: Str, v: Str)
    returns (id: nat)
    requires !OneBody(s, n, v) && (n in Objects(s.dir) ==> Objects(s.dir)[n] == v)
    requires Inv(s) && AllAtStart(s, n)
    ensures id in s.procs && s.procs[id].PutCheck?
    ensures var put := s.procs[id].put;
      put.Named() && put.name == n != [] && Received(put.chunks).Some? && Received(put.chunks) != Some(v)
  {
    hide EncodeKey, IsTempName, Received, OwnDirs, DirOrder, Distinct;
    id :| id in s.procs && ActiveOn(s.procs[id], n) && !Brings(RequestOf(s.procs[id]), v);
    assert OwnTemps(s.dir, s.procs[id]);
  }

  lemma OldAndNew(s: State, n: Str, t: Str, u: Str)
    requires Inv(s) && AllAtStart(s, n) && Agree(s.dir, n) && n in Objects(s.dir)
    requires HasObjects(s.dir) && TwoTemps(s.dir, t, u)
    requires !OneBody(s, n, Objects(s.dir)[n])
    ensures CanMisread(s, n)
  {
    hide Inv, Exec, Possible, TwoTemps, IsTempName, OneBody, EncodeKey, Received, SidecarName, Spared, OnlySteps;
    var id := OtherBody(s, n, Objects(s.dir)[n]);
    var between := ReplacedUnderRead(s, id, s.procs[id].put, Objects(s.dir)[n], t, u);
    StepsSpare(between, n);
    NothingSpares(s, n);
    assert MisreadAt(s, [], between, n);
  }

  lemma NothingSpares(s: State, n: Str)
    ensures Possible(s, []) && Exec(s, []) == s && Spared([], n)
  {
  }

  lemma TwoNew(s: State, n: Str, t: Str, u: Str)
    requires Inv(s) && AllAtStart(s, n) && n !in Objects(s.dir)
    requires HasObjects(s.dir) && TwoTemps(s.dir, t, u)
    requires forall v :: !OneBody(s, n, v)
    ensures CanMisread(s, n)
  {
    hide MisreadAt, TwoTemps, IsTempName, OneBody, EncodeKey, Received, Distinct, OwnTemps, OwnDirs;
    var first := OtherBody(s, n, []);
    var body := Received(s.procs[first].put.chunks).value;
    var second := OtherBody(s, n, body);
    var before, between := ReplacedAfterPut(s, first, s.procs[first].put, second, s.procs[second].put, t, u);
    assert MisreadAt(s, before, between, n);
  }
}
