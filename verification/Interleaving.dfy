/** One bucket under concurrent requests. The server holds no lock: a request is a sequence of
    filesystem steps, and the steps of different requests interleave freely. Covers put_object,
    delete_object and delete_bucket of crates/storage/src/fs.rs, with write_sidecar of meta.rs. */
module Interleaving {
  import opened Wrappers
  import opened Bytes
  import opened KeyEncoding
  import opened Meta
  import opened DiskOps

  /** A put whose key encodes to `name`. */
  datatype PutReq = PutReq(key: Str, name: Str, chunks: seq<Chunk>, contentType: Option<Str>, now: int) {
    predicate Named() {
      EncodeKey(key) == Success(name)
    }

    /** The metadata recorded for a body that arrived in full. */
    function Recorded(): ObjectMeta
      requires Received(chunks).Some?
    {
      var body := Received(chunks).value;
      ObjectMeta(key, |body|, TypeOr(contentType), Md5(body), now)
    }
  }

  datatype Request = PutKey(put: PutReq) | DeleteKey(key: Str, name: Str) | DropBucket {
    predicate Named() {
      match this
      case PutKey(put) => put.Named()
      case DeleteKey(key, name) => EncodeKey(key) == Success(name)
      case DropBucket => true
    }

    /** The object file the request is about. */
    function Target(): Option<Str> {
      match this
      case PutKey(put) => Some(put.name)
      case DeleteKey(_, name) => Some(name)
      case DropBucket => None
    }
  }

  /** How far a request has come: the next filesystem step it will take. */
  datatype Proc =
    | PutCheck(put: PutReq)
    | PutCreate(put: PutReq)
    | PutWrite(put: PutReq, tmp: Str, i: nat)      // chunk i, or the rename after the last one
    | PutCleanup(put: PutReq, tmp: Str)
    | MetaCreate(put: PutReq)
    | MetaWrite(put: PutReq, tmp: Str)
    | MetaRename(put: PutReq, tmp: Str)
    | DeleteBody(key: Str, name: Str)
    | DeleteMeta(key: Str, name: Str)
    | BucketCheck
    | BucketEmpty
    | BucketObjects
    | BucketMeta
    | BucketRecheck(objects: bool)
    | BucketInfo
    | BucketDirectory
    | Ended(request: Request, outcome: Result<()>)

  type Dir = Option<BucketDir>

  function Objects(dir: Dir): map<Str, Str> {
    if dir.Some? && dir.value.objects.Some? then dir.value.objects.value else map[]
  }

  function Sidecars(dir: Dir): map<Str, Sidecar> {
    if dir.Some? && dir.value.meta.Some? then dir.value.meta.value else map[]
  }

  predicate HasObjects(dir: Dir) {
    dir.Some? && dir.value.objects.Some?
  }

  predicate HasMeta(dir: Dir) {
    dir.Some? && dir.value.meta.Some?
  }

  function SetObjects(dir: Dir, files: map<Str, Str>): Dir
    requires dir.Some?
  {
    Some(dir.value.(objects := Some(files)))
  }

  function SetMeta(dir: Dir, files: map<Str, Sidecar>): Dir
    requires dir.Some?
  {
    Some(dir.value.(meta := Some(files)))
  }

  function First(request: Request): Proc {
    match request
    case PutKey(put) => PutCheck(put)
    case DeleteKey(key, name) => DeleteBody(key, name)
    case DropBucket => BucketCheck
  }

  /** The request a process serves. */
  function RequestOf(p: Proc): Request {
    if p.Ended? then p.request
    else if p.DeleteBody? || p.DeleteMeta? then DeleteKey(p.key, p.name)
    else if
      || p.PutCheck? || p.PutCreate? || p.PutWrite? || p.PutCleanup?
      || p.MetaCreate? || p.MetaWrite? || p.MetaRename?
    then PutKey(p.put)
    else DropBucket
  }

  function Fail(p: Proc, e: Error): Proc {
    Ended(RequestOf(p), Failure(e))
  }

  function Ok(p: Proc): Proc {
    Ended(RequestOf(p), Success(()))
  }

  /** One filesystem step; `tmp` is the name tempfile draws if the step creates a temp file. */
  function Step(dir: Dir, p: Proc, tmp: Str): (Dir, Proc) {
    match p
    case PutCheck(put) => (dir, if dir.Some? then PutCreate(put) else Fail(p, NoSuchBucket))
    case PutCreate(put) =>
      if HasObjects(dir) then (SetObjects(dir, Objects(dir)[tmp := []]), PutWrite(put, tmp, 0))
      else (dir, Fail(p, Io))
    case PutWrite(put, t, i) =>
      if t !in Objects(dir) then (dir, Fail(p, Io))
      else if i < |put.chunks| then
        if put.chunks[i].Broken? then (dir, PutCleanup(put, t))
        else (SetObjects(dir, Objects(dir)[t := Objects(dir)[t] + put.chunks[i].bytes]), PutWrite(put, t, i + 1))
      else if put.name == [] then (dir, PutCleanup(put, t))
      else (SetObjects(dir, Rename(Objects(dir), t, put.name)), MetaCreate(put))
    case PutCleanup(put, t) =>
      (if HasObjects(dir) then SetObjects(dir, Objects(dir) - {t}) else dir, Fail(p, Io))
    case MetaCreate(put) =>
      if HasMeta(dir) then (SetMeta(dir, Sidecars(dir)[tmp := Torn]), MetaWrite(put, tmp))
      else (dir, Fail(p, Io))
    case MetaWrite(put, t) =>
      if t !in Sidecars(dir) || Received(put.chunks).None? then (dir, Fail(p, Io))
      else (SetMeta(dir, Sidecars(dir)[t := Json(put.Recorded())]), MetaRename(put, t))
    case MetaRename(put, t) =>
      if t !in Sidecars(dir) then (dir, Fail(p, Io))
      else (SetMeta(dir, Rename(Sidecars(dir), t, SidecarName(put.name))), Ok(p))
    case DeleteBody(key, name) =>
      if name == [] && HasObjects(dir) then (dir, Fail(p, Io))
      else if name !in Objects(dir) then (dir, Fail(p, NoSuchKey))
      else (SetObjects(dir, Objects(dir) - {name}), DeleteMeta(key, name))
    case DeleteMeta(_, name) =>
      (if HasMeta(dir) then SetMeta(dir, Sidecars(dir) - {SidecarName(name)}) else dir, Ok(p))
    case BucketCheck => (dir, if dir.Some? then BucketEmpty else Fail(p, NoSuchBucket))
    case BucketEmpty => (dir, if Objects(dir) == map[] then BucketObjects else Fail(p, BucketNotEmpty))
    case BucketObjects =>
      if !HasObjects(dir) then (dir, BucketMeta)
      else if Objects(dir) != map[] then (dir, BucketRecheck(true))
      else (Some(dir.value.(objects := None)), BucketMeta)
    case BucketMeta =>
      if !HasMeta(dir) then (dir, BucketInfo)
      else if Sidecars(dir) != map[] then (dir, BucketRecheck(false))
      else (Some(dir.value.(meta := None)), BucketInfo)
    case BucketRecheck(objects) =>
      var entries := if objects then Objects(dir) != map[] else Sidecars(dir) != map[];
      (dir, Fail(p, if entries then BucketNotEmpty else Io))
    case BucketInfo => (if dir.Some? then Some(dir.value.(info := false)) else dir, BucketDirectory)
    case BucketDirectory =>
      if dir.None? then (dir, Ok(p))
      else if HasObjects(dir) || HasMeta(dir) || dir.value.info then (dir, Fail(p, Io))
      else (None, Ok(p))
    case Ended(_, _) => (dir, p)
  }

  // ---- Runs ----

  datatype State = State(dir: Dir, procs: map<nat, Proc>)

  /** A request arrives, a request takes its next step, or the server dies with all of them. */
  datatype Action = Arrive(id: nat, request: Request) | Advance(id: nat, tmp: Str) | Crash

  predicate Enabled(s: State, a: Action) {
    match a
    case Arrive(id, request) => id !in s.procs && request.Named()
    case Advance(id, tmp) =>
      id in s.procs && IsTempName(tmp) && tmp !in Objects(s.dir) && tmp !in Sidecars(s.dir)
    case Crash => true
  }

  function Next(s: State, a: Action): State
    requires Enabled(s, a)
  {
    match a
    case Arrive(id, request) => s.(procs := s.procs[id := First(request)])
    case Advance(id, tmp) =>
      var (dir, p) := Step(s.dir, s.procs[id], tmp);
      State(dir, s.procs[id := p])
    case Crash => s.(procs := map[])
  }

  predicate Possible(s: State, acts: seq<Action>)
    decreases |acts|
  {
    acts == [] || (Enabled(s, acts[0]) && Possible(Next(s, acts[0]), acts[1..]))
  }

  function Exec(s: State, acts: seq<Action>): State
    requires Possible(s, acts)
    decreases |acts|
  {
    if acts == [] then s else Exec(Next(s, acts[0]), acts[1..])
  }

  // ---- Temp files and directories ----

  /** The temp file a process has in objects/, and in meta/. */
  function BodyTemp(p: Proc): Option<Str> {
    if p.PutWrite? || p.PutCleanup? then Some(p.tmp) else None
  }

  function MetaTemp(p: Proc): Option<Str> {
    if p.MetaWrite? || p.MetaRename? then Some(p.tmp) else None
  }

  /** A temp file holds what its process has written so far. */
  predicate OwnTemps(dir: Dir, p: Proc) {
    && RequestOf(p).Named()
    && (BodyTemp(p).Some? ==> IsTempName(p.tmp) && p.tmp in Objects(dir))
    && (MetaTemp(p).Some? ==> IsTempName(p.tmp) && p.tmp in Sidecars(dir))
    && (p.PutWrite? ==> p.i <= |p.put.chunks| && Received(p.put.chunks[..p.i]) == Some(Objects(dir)[p.tmp]))
    && (p.MetaCreate? || p.MetaWrite? || p.MetaRename? ==> Received(p.put.chunks).Some? && p.put.name != [])
    && (p.MetaRename? ==> Sidecars(dir)[p.tmp] == Json(p.put.Recorded()))
  }

  /** Directories go in the order objects/, meta/, bucket, and none comes back. */
  predicate OwnDirs(dir: Dir, p: Proc) {
    && (p.BucketMeta? ==> !HasObjects(dir))
    && (p.BucketInfo? || p.BucketDirectory? ==> !HasObjects(dir) && !HasMeta(dir))
  }

  ghost predicate Distinct(procs: map<nat, Proc>) {
    forall p, q :: p in procs && q in procs && p != q ==>
      && (BodyTemp(procs[p]).Some? ==> BodyTemp(procs[p]) != BodyTemp(procs[q]))
      && (MetaTemp(procs[p]).Some? ==> MetaTemp(procs[p]) != MetaTemp(procs[q]))
  }

  predicate DirOrder(dir: Dir) {
    HasObjects(dir) ==> HasMeta(dir)
  }

  ghost predicate Inv(s: State) {
    && DirOrder(s.dir)
    && Distinct(s.procs)
    && forall p :: p in s.procs ==> OwnTemps(s.dir, s.procs[p]) && OwnDirs(s.dir, s.procs[p])
  }

  predicate Fresh(dir: Dir, tmp: Str) {
    IsTempName(tmp) && tmp !in Objects(dir) && tmp !in Sidecars(dir)
  }

  /** A step leaves other processes' temp files alone. */
  lemma StepKeepsTemps(dir: Dir, p: Proc, tmp: Str, t: Str)
    requires RequestOf(p).Named() && IsTempName(t)
    ensures var dir' := Step(dir, p, tmp).0;
      && (t in Objects(dir) && BodyTemp(p) != Some(t) && t != tmp ==>
           t in Objects(dir') && Objects(dir')[t] == Objects(dir)[t])
      && (t in Sidecars(dir) && MetaTemp(p) != Some(t) && t != tmp ==>
           t in Sidecars(dir') && Sidecars(dir')[t] == Sidecars(dir)[t])
  {
    hide EncodeKey, Received;
    NameIsNoTemp(p, t);
  }

  lemma NameIsNoTemp(p: Proc, t: Str)
    requires RequestOf(p).Named() && IsTempName(t)
    ensures RequestOf(p).Target().Some? ==>
      t != RequestOf(p).Target().value && t != SidecarName(RequestOf(p).Target().value)
  {
    hide EncodeKey;
    match RequestOf(p)
    case PutKey(put) => NamesApart(put.key, t);
    case DeleteKey(key, _) => NamesApart(key, t);
    case DropBucket =>
  }

  /** What a process and the directories keep when it takes a step. */
  ghost predicate StepKept(dir: Dir, p: Proc, tmp: Str) {
    var (dir', p') := Step(dir, p, tmp);
    && DirOrder(dir') && OwnTemps(dir', p') && OwnDirs(dir', p')
    && RequestOf(p') == RequestOf(p)
    && (BodyTemp(p').Some? ==> BodyTemp(p') == BodyTemp(p) || BodyTemp(p') == Some(tmp))
    && (MetaTemp(p').Some? ==> MetaTemp(p') == MetaTemp(p) || MetaTemp(p') == Some(tmp))
  }

  lemma WriterKeepsOwn(dir: Dir, p: Proc, tmp: Str)
    requires DirOrder(dir) && OwnTemps(dir, p) && Fresh(dir, tmp) && p.PutWrite?
    ensures StepKept(dir, p, tmp)
  {
    hide EncodeKey, IsTempName, Received;
    if p.i < |p.put.chunks| {
      ReceivedSnoc(p.put.chunks, p.i);
    } else {
      assert p.put.chunks[..p.i] == p.put.chunks;
    }
  }

  lemma PutKeepsOwn(dir: Dir, p: Proc, tmp: Str)
    requires DirOrder(dir) && OwnTemps(dir, p) && Fresh(dir, tmp)
    requires p.PutCheck? || p.PutCreate? || p.PutCleanup? || p.Ended?
    ensures StepKept(dir, p, tmp)
  {
    hide EncodeKey, IsTempName, Received;
    NothingReceived(p);
  }

  lemma MetaKeepsOwn(dir: Dir, p: Proc, tmp: Str)
    requires DirOrder(dir) && OwnTemps(dir, p) && Fresh(dir, tmp)
    requires p.MetaCreate? || p.MetaWrite? || p.MetaRename?
    ensures StepKept(dir, p, tmp)
  {
    hide EncodeKey, IsTempName, Received;
  }

  lemma DeleteKeepsOwn(dir: Dir, p: Proc, tmp: Str)
    requires DirOrder(dir) && OwnTemps(dir, p)
    requires p.DeleteBody? || p.DeleteMeta?
    ensures StepKept(dir, p, tmp)
  {
    hide EncodeKey, IsTempName, Received;
  }

  lemma DropKeepsOwn(dir: Dir, p: Proc, tmp: Str)
    requires DirOrder(dir) && OwnTemps(dir, p) && OwnDirs(dir, p)
    requires RequestOf(p).DropBucket?
    ensures StepKept(dir, p, tmp)
  {
    hide EncodeKey, IsTempName, Received;
  }

  lemma StepKeepsOwn(dir: Dir, p: Proc, tmp: Str)
    requires DirOrder(dir) && OwnTemps(dir, p) && OwnDirs(dir, p) && Fresh(dir, tmp)
    ensures StepKept(dir, p, tmp)
  {
    hide StepKept, Step, OwnTemps, OwnDirs, DirOrder, Fresh;
    if p.PutWrite? {
      WriterKeepsOwn(dir, p, tmp);
    } else if p.PutCheck? || p.PutCreate? || p.PutCleanup? || p.Ended? {
      PutKeepsOwn(dir, p, tmp);
    } else if p.MetaCreate? || p.MetaWrite? || p.MetaRename? {
      MetaKeepsOwn(dir, p, tmp);
    } else if p.DeleteBody? || p.DeleteMeta? {
      DeleteKeepsOwn(dir, p, tmp);
    } else {
      DropKeepsOwn(dir, p, tmp);
    }
  }

  lemma NothingReceived(p: Proc)
    ensures p.PutCreate? ==> Received(p.put.chunks[..0]) == Some([])
  {
  }

  /** Directories that are gone stay gone. */
  lemma StepKeepsDirs(dir: Dir, p: Proc, tmp: Str, q: Proc)
    requires OwnDirs(dir, q)
    ensures OwnDirs(Step(dir, p, tmp).0, q)
  {
    hide EncodeKey, IsTempName, Received;
  }

  lemma InvNext(s: State, a: Action)
    requires Inv(s) && Enabled(s, a)
    ensures Inv(Next(s, a))
  {
    hide Step, OwnTemps, OwnDirs, EncodeKey, IsTempName, Received, DirOrder;
    match a
    case Arrive(id, request) => FirstOwns(s.dir, request);
    case Crash =>
    case Advance(id, tmp) =>
      var s' := Next(s, a);
      StepKeepsOwn(s.dir, s.procs[id], tmp);
      forall q | q in s'.procs
        ensures OwnTemps(s'.dir, s'.procs[q]) && OwnDirs(s'.dir, s'.procs[q])
        ensures q != id ==> BodyTemp(s.procs[q]) != Some(tmp) && MetaTemp(s.procs[q]) != Some(tmp)
      {
        if q != id {
          OthersKept(s, id, tmp, q);
        }
      }
  }

  lemma FirstOwns(dir: Dir, request: Request)
    requires request.Named()
    ensures OwnTemps(dir, First(request)) && OwnDirs(dir, First(request))
    ensures BodyTemp(First(request)).None? && MetaTemp(First(request)).None?
  {
    hide EncodeKey;
  }

  lemma OthersKept(s: State, id: nat, tmp: Str, q: nat)
    requires Inv(s) && id in s.procs && Fresh(s.dir, tmp) && q in s.procs && q != id
    ensures OwnTemps(Step(s.dir, s.procs[id], tmp).0, s.procs[q])
    ensures OwnDirs(Step(s.dir, s.procs[id], tmp).0, s.procs[q])
    ensures BodyTemp(s.procs[q]) != Some(tmp) && MetaTemp(s.procs[q]) != Some(tmp)
  {
    hide Step, EncodeKey, IsTempName, Received, DirOrder;
    StepKeepsDirs(s.dir, s.procs[id], tmp, s.procs[q]);
    if BodyTemp(s.procs[q]).Some? || MetaTemp(s.procs[q]).Some? {
      StepKeepsTemps(s.dir, s.procs[id], tmp, s.procs[q].tmp);
    }
  }

  ghost predicate Initial(s: State) {
    s.procs == map[] && DirOrder(s.dir)
  }

  /** The invariant holds in every state of every run, overlapping requests and crashes included. */
  lemma {:induction false} InvAlways(s: State, acts: seq<Action>)
    requires Inv(s) && Possible(s, acts)
    ensures Inv(Exec(s, acts))
    decreases |acts|
  {
    hide Inv, Next, Enabled;
    if acts != [] {
      InvNext(s, acts[0]);
      InvAlways(Next(s, acts[0]), acts[1..]);
    }
  }

  // ---- Atomic visibility ----

  /** A step changes a named object file only by putting a complete body there, and a sidecar
      only by putting complete metadata there. */
  lemma StepWritesWhole(dir: Dir, p: Proc, tmp: Str, n: Str)
    requires OwnTemps(dir, p) && Fresh(dir, tmp) && !IsTempName(n)
    ensures var dir' := Step(dir, p, tmp).0;
      && (n in Objects(dir') ==>
           || (n in Objects(dir) && Objects(dir)[n] == Objects(dir')[n])
           || (p.PutWrite? && p.put.name == n && Received(p.put.chunks) == Some(Objects(dir')[n])))
      && (n in Sidecars(dir') ==>
           || (n in Sidecars(dir) && Sidecars(dir)[n] == Sidecars(dir')[n])
           || (p.MetaRename? && SidecarName(p.put.name) == n && Received(p.put.chunks).Some?
               && Sidecars(dir')[n] == Json(p.put.Recorded())))
  {
    hide EncodeKey, IsTempName;
    if p.PutWrite? && p.i == |p.put.chunks| {
      assert p.put.chunks[..p.i] == p.put.chunks;
    }
  }

  /** A put that is in flight, or arrives on the way. */
  ghost predicate Seen(s: State, acts: seq<Action>, put: PutReq) {
    || (exists id :: id in s.procs && RequestOf(s.procs[id]) == PutKey(put))
    || (exists id :: Arrive(id, PutKey(put)) in acts)
  }

  lemma SeenEarlier(s: State, acts: seq<Action>, put: PutReq)
    requires acts != [] && Enabled(s, acts[0]) && Inv(s)
    requires Seen(Next(s, acts[0]), acts[1..], put)
    ensures Seen(s, acts, put)
  {
    hide Step, Inv, EncodeKey, IsTempName;
    var s' := Next(s, acts[0]);
    if id :| Arrive(id, PutKey(put)) in acts[1..] {
      assert Arrive(id, PutKey(put)) in acts;
    } else {
      var id :| id in s'.procs && RequestOf(s'.procs[id]) == PutKey(put);
      if acts[0].Advance? && acts[0].id == id {
        SameRequest(s.dir, s.procs[id], acts[0].tmp);
        assert id in s.procs && RequestOf(s.procs[id]) == PutKey(put);
      } else if acts[0].Arrive? && acts[0].id == id {
        assert acts[0] == Arrive(id, PutKey(put));
      } else {
        assert id in s.procs && RequestOf(s.procs[id]) == PutKey(put);
      }
    }
  }

  lemma SameRequest(dir: Dir, p: Proc, tmp: Str)
    ensures RequestOf(Step(dir, p, tmp).1) == RequestOf(p)
  {
  }

  /** In every run, with overlapping requests and crashes, a named object file holds what it
      held at the start or the complete body of one put to that very name. */
  lemma {:induction false} BodiesComplete(s: State, acts: seq<Action>, n: Str)
    requires Inv(s) && Possible(s, acts) && !IsTempName(n) && n in Objects(Exec(s, acts).dir)
    ensures var body := Objects(Exec(s, acts).dir)[n];
      || (n in Objects(s.dir) && Objects(s.dir)[n] == body)
      || (exists put :: Seen(s, acts, put) && put.name == n && Received(put.chunks) == Some(body))
    decreases |acts|
  {
    hide Step, Inv, EncodeKey, IsTempName, Received, Seen, Enabled;
    if acts != [] {
      var s' := Next(s, acts[0]);
      InvNext(s, acts[0]);
      BodiesComplete(s', acts[1..], n);
      var body := Objects(Exec(s, acts).dir)[n];
      if n in Objects(s'.dir) && Objects(s'.dir)[n] == body {
        StepSource(s, acts, n);
      } else {
        var put :| Seen(s', acts[1..], put) && put.name == n && Received(put.chunks) == Some(body);
        SeenEarlier(s, acts, put);
      }
    }
  }

  /** The first action of a run, as `BodiesComplete` and `SidecarsComplete` see it. */
  lemma StepSource(s: State, acts: seq<Action>, n: Str)
    requires Inv(s) && acts != [] && Enabled(s, acts[0]) && !IsTempName(n)
    ensures var dir' := Next(s, acts[0]).dir;
      && (n in Objects(dir') ==>
           || (n in Objects(s.dir) && Objects(s.dir)[n] == Objects(dir')[n])
           || (exists put :: Seen(s, acts, put) && put.name == n && Received(put.chunks) == Some(Objects(dir')[n])))
      && (n in Sidecars(dir') ==>
           || (n in Sidecars(s.dir) && Sidecars(s.dir)[n] == Sidecars(dir')[n])
           || (exists put :: Seen(s, acts, put) && SidecarName(put.name) == n && Received(put.chunks).Some?
                             && Sidecars(dir')[n] == Json(put.Recorded())))
  {
    hide Step, EncodeKey, IsTempName, Received;
    if acts[0].Advance? {
      var id, tmp := acts[0].id, acts[0].tmp;
      var p := s.procs[id];
      StepWritesWhole(s.dir, p, tmp, n);
      if p.PutWrite? || p.MetaRename? {
        assert RequestOf(p) == PutKey(p.put);
        assert Seen(s, acts, p.put);
      }
    }
  }

  /** Likewise every sidecar is a sidecar of the start or the complete metadata of one put to
      its name, never a torn file. */
  lemma {:induction false} SidecarsComplete(s: State, acts: seq<Action>, n: Str)
    requires Inv(s) && Possible(s, acts) && !IsTempName(n) && n in Sidecars(Exec(s, acts).dir)
    ensures var file := Sidecars(Exec(s, acts).dir)[n];
      || (n in Sidecars(s.dir) && Sidecars(s.dir)[n] == file)
      || (exists put :: Seen(s, acts, put) && SidecarName(put.name) == n && Received(put.chunks).Some?
                        && file == Json(put.Recorded()))
    decreases |acts|
  {
    hide Step, Inv, EncodeKey, IsTempName, Received, Seen, Enabled;
    if acts != [] {
      var s' := Next(s, acts[0]);
      InvNext(s, acts[0]);
      SidecarsComplete(s', acts[1..], n);
      var file := Sidecars(Exec(s, acts).dir)[n];
      if n in Sidecars(s'.dir) && Sidecars(s'.dir)[n] == file {
        StepSource(s, acts, n);
      } else {
        var put :| Seen(s', acts[1..], put) && SidecarName(put.name) == n && Received(put.chunks).Some?
                   && file == Json(put.Recorded());
        SeenEarlier(s, acts, put);
      }
    }
  }

  /** The files of a key are the same in both. */
  predicate SameFiles(dir: Dir, dir': Dir, n: Str) {
    && (n in Objects(dir) <==> n in Objects(dir'))
    && (n in Objects(dir) ==> Objects(dir)[n] == Objects(dir')[n])
    && (SidecarName(n) in Sidecars(dir) <==> SidecarName(n) in Sidecars(dir'))
    && (SidecarName(n) in Sidecars(dir) ==> Sidecars(dir)[SidecarName(n)] == Sidecars(dir')[SidecarName(n)])
  }

  /** The files a step may touch. */
  lemma StepFootprint(dir: Dir, p: Proc, tmp: Str, n: Str)
    requires n != tmp && SidecarName(n) != tmp
    requires BodyTemp(p) != Some(n) && MetaTemp(p) != Some(SidecarName(n))
    requires RequestOf(p).Target().Some? ==>
      RequestOf(p).Target().value != n && SidecarName(RequestOf(p).Target().value) != SidecarName(n)
    ensures SameFiles(dir, Step(dir, p, tmp).0, n)
  {
    hide EncodeKey, Received, SidecarName;
  }

  /** A step leaves the files of every key but its own alone. */
  lemma StepKeepsFiles(dir: Dir, p: Proc, tmp: Str, n: Str)
    requires OwnTemps(dir, p) && Fresh(dir, tmp) && !IsTempName(n) && RequestOf(p).Target() != Some(n)
    ensures SameFiles(dir, Step(dir, p, tmp).0, n)
  {
    hide EncodeKey, IsTempName, Received, Step, SidecarName, SameFiles;
    SidecarNoTemp(n);
    StemOfSidecar(n);
    if RequestOf(p).Target().Some? {
      StemOfSidecar(RequestOf(p).Target().value);
    }
    StepFootprint(dir, p, tmp, n);
  }

  lemma OwnNameIsNoTemp(p: Proc, t: Str)
    requires RequestOf(p).Named()
    ensures IsTempName(t) && RequestOf(p).Target().Some? ==>
      t != RequestOf(p).Target().value && t != SidecarName(RequestOf(p).Target().value)
  {
    if IsTempName(t) {
      NameIsNoTemp(p, t);
    }
  }

  lemma TargetNoTemp(p: Proc)
    requires RequestOf(p).Named() && RequestOf(p).Target().Some?
    ensures !IsTempName(RequestOf(p).Target().value)
  {
    if IsTempName(RequestOf(p).Target().value) {
      NameIsNoTemp(p, RequestOf(p).Target().value);
    }
  }

  lemma EndedChangesNothing(dir: Dir, p: Proc, tmp: Str)
    requires p.Ended?
    ensures Step(dir, p, tmp) == (dir, p)
  {
  }

  // ---- Main results ----

  lemma InitialInv(s: State)
    requires Initial(s)
    ensures Inv(s)
  {
  }

  /** In every run from a server start, with overlapping requests, and also right after a crash:
      a named object file holds what it held at the start, or all the bytes of one put to that
      name; a sidecar what it was at the start, or all the metadata of one such put. */
  lemma AtomicVisibility(s: State, acts: seq<Action>, n: Str)
    requires Initial(s) && Possible(s, acts) && !IsTempName(n)
    ensures var dir := Exec(s, acts).dir;
      && (n in Objects(dir) ==>
           || (n in Objects(s.dir) && Objects(s.dir)[n] == Objects(dir)[n])
           || (exists id, put :: Arrive(id, PutKey(put)) in acts && put.name == n
                                 && Received(put.chunks) == Some(Objects(dir)[n])))
      && (n in Sidecars(dir) ==>
           || (n in Sidecars(s.dir) && Sidecars(s.dir)[n] == Sidecars(dir)[n])
           || (exists id, put :: Arrive(id, PutKey(put)) in acts && SidecarName(put.name) == n
                                 && Received(put.chunks).Some? && Sidecars(dir)[n] == Json(put.Recorded())))
  {
    hide Exec, Inv, IsTempName, Received;
    InitialInv(s);
    var dir := Exec(s, acts).dir;
    if n in Objects(dir) {
      BodiesComplete(s, acts, n);
    }
    if n in Sidecars(dir) {
      SidecarsComplete(s, acts, n);
    }
  }

  /** Deleting a bucket removes no file, at any step, whatever else is going on. */
  lemma DropRemovesNoFile(dir: Dir, p: Proc, tmp: Str)
    requires RequestOf(p).DropBucket?
    ensures Objects(Step(dir, p, tmp).0) == Objects(dir)
    ensures Sidecars(Step(dir, p, tmp).0) == Sidecars(dir)
  {
  }

  predicate Deletes(request: Request, n: Str) {
    request.DeleteKey? && request.name == n
  }

  lemma StepRemovesOnlyOwn(dir: Dir, p: Proc, tmp: Str, n: Str)
    requires OwnTemps(dir, p) && Fresh(dir, tmp) && !IsTempName(n) && !Deletes(RequestOf(p), n)
    ensures n in Objects(dir) ==> n in Objects(Step(dir, p, tmp).0)
    ensures SidecarName(n) in Sidecars(dir) ==> SidecarName(n) in Sidecars(Step(dir, p, tmp).0)
  {
    hide EncodeKey, IsTempName, Received;
    SidecarNoTemp(n);
    StemOfSidecar(n);
    if RequestOf(p).Target().Some? {
      StemOfSidecar(RequestOf(p).Target().value);
    }
  }

  /** Nothing but a delete of the very key removes a file: in every run, through overlapping
      requests, bucket deletions and crashes, a named object file and its sidecar stay in place,
      though puts may replace them. */
  lemma {:induction false} OnlyDeletesRemove(s: State, acts: seq<Action>, n: Str)
    requires Inv(s) && Possible(s, acts) && !IsTempName(n)
    requires forall id :: id in s.procs ==> !Deletes(RequestOf(s.procs[id]), n)
    requires forall a :: a in acts && a.Arrive? ==> !Deletes(a.request, n)
    ensures n in Objects(s.dir) ==> n in Objects(Exec(s, acts).dir)
    ensures SidecarName(n) in Sidecars(s.dir) ==> SidecarName(n) in Sidecars(Exec(s, acts).dir)
    decreases |acts|
  {
    hide Step, EncodeKey, IsTempName, Received, OwnTemps, OwnDirs;
    if acts != [] {
      var s' := Next(s, acts[0]);
      InvNext(s, acts[0]);
      if acts[0].Advance? {
        StepRemovesOnlyOwn(s.dir, s.procs[acts[0].id], acts[0].tmp, n);
        SameRequest(s.dir, s.procs[acts[0].id], acts[0].tmp);
      }
      forall id | id in s'.procs ensures !Deletes(RequestOf(s'.procs[id]), n) {
        assert acts[0] in acts;
        assert id in s.procs ==> !Deletes(RequestOf(s.procs[id]), n);
      }
      OnlyDeletesRemove(s', acts[1..], n);
    }
  }
}
