/** The two views of one program agree: a request whose filesystem steps are taken without any
    other request in between does to the bucket what module `DiskOps` says, with the same answer. */
module Alone {
  import opened Wrappers
  import opened Bytes
  import opened KeyEncoding
  import opened Meta
  import opened DiskOps
  import opened Interleaving

  /** Upper bound on the steps a process has left. */
  function StepsLeft(p: Proc): nat {
    match p
    case PutCheck(put) => |put.chunks| + 8
    case PutCreate(put) => |put.chunks| + 7
    case PutWrite(put, _, i) => (if i < |put.chunks| then |put.chunks| - i else 0) + 5
    case PutCleanup(_, _) => 4
    case MetaCreate(_) => 3
    case MetaWrite(_, _) => 2
    case MetaRename(_, _) => 1
    case DeleteBody(_, _) => 2
    case DeleteMeta(_, _) => 1
    case BucketCheck => 7
    case BucketEmpty => 6
    case BucketObjects => 5
    case BucketMeta => 4
    case BucketRecheck(_) => 1
    case BucketInfo => 2
    case BucketDirectory => 1
    case Ended(_, _) => 0
  }

  lemma StepsDecrease(dir: Dir, p: Proc, tmp: Str)
    requires !p.Ended?
    ensures StepsLeft(Step(dir, p, tmp).1) < StepsLeft(p)
  {
    hide EncodeKey, Received;
  }

  /** The steps of one process, to its end. */
  function Finish(dir: Dir, p: Proc, tmp: Str): (Dir, Proc)
    decreases StepsLeft(p)
  {
    if p.Ended? then (dir, p)
    else
      StepsDecrease(dir, p, tmp);
      var (dir', p') := Step(dir, p, tmp);
      Finish(dir', p', tmp)
  }

  lemma OneStep(dir: Dir, p: Proc, tmp: Str, dir': Dir, p': Proc)
    requires !p.Ended? && Step(dir, p, tmp) == (dir', p')
    ensures Finish(dir, p, tmp) == Finish(dir', p', tmp)
  {
    hide Step;
  }

  function DirOf(d: Disk, b: Str): Dir {
    if b in d.buckets then Some(d.buckets[b]) else None
  }

  function Outcome<T>(r: Result<T>): Result<()> {
    if r.Success? then Success(()) else Failure(r.error)
  }

  /** The sequential operation for a request. */
  function Sequentially(d: Disk, b: Str, request: Request): (Disk, Result<()>) {
    match request
    case PutKey(put) =>
      var (d', r) := DiskOps.PutObject(d, b, put.key, put.chunks, put.contentType, put.now);
      (d', Outcome(r))
    case DeleteKey(key, _) => DiskOps.DeleteObject(d, b, key)
    case DropBucket => DiskOps.DeleteBucket(d, b)
  }

  ghost predicate SameAlone(d: Disk, b: Str, request: Request, tmp: Str) {
    var (d', r) := Sequentially(d, b, request);
    Finish(DirOf(d, b), First(request), tmp) == (DirOf(d', b), Ended(request, r))
  }

  /** The chunks of a body, written to the temp file one by one, and what follows them. */
  lemma {:induction false} WritesAlone(bd: BucketDir, put: PutReq, tmp: Str, i: nat)
    requires bd.objects.Some? && put.Named() && IsTempName(tmp) && tmp !in bd.objects.value
    requires bd.meta.Some? ==> tmp !in bd.meta.value
    requires i <= |put.chunks| && Received(put.chunks[..i]).Some?
    ensures var now := bd.(objects := Some(bd.objects.value[tmp := Received(put.chunks[..i]).value]));
      Finish(Some(now), PutWrite(put, tmp, i), tmp) == AfterBody(bd, put)
    decreases |put.chunks| - i
  {
    hide EncodeKey, IsTempName;
    var files := bd.objects.value;
    var sofar := Received(put.chunks[..i]).value;
    var now := bd.(objects := Some(files[tmp := sofar]));
    if i < |put.chunks| {
      ReceivedSnoc(put.chunks, i);
      if put.chunks[i].Broken? {
        BrokenStays(put.chunks, i + 1);
        CleansAlone(bd, put, tmp, sofar);
      } else {
        assert files[tmp := sofar][tmp := sofar + put.chunks[i].bytes] == files[tmp := sofar + put.chunks[i].bytes];
        WritesAlone(bd, put, tmp, i + 1);
      }
    } else {
      assert put.chunks[..i] == put.chunks;
      if put.name == [] {
        CleansAlone(bd, put, tmp, sofar);
      } else {
        NamesApart(put.key, tmp);
        assert Rename(files[tmp := sofar], tmp, put.name) == files[put.name := sofar];
        SidecarAlone(bd.(objects := Some(files[put.name := sofar])), put, tmp);
      }
    }
  }

  /** What becomes of the bucket once the body has been received, or not. */
  function AfterBody(bd: BucketDir, put: PutReq): (Dir, Proc)
    requires bd.objects.Some?
  {
    if Received(put.chunks).None? || put.name == [] then (Some(bd), Ended(PutKey(put), Failure(Io)))
    else
      AfterRename(bd.(objects := Some(bd.objects.value[put.name := Received(put.chunks).value])), put)
  }

  function AfterRename(bd: BucketDir, put: PutReq): (Dir, Proc)
    requires Received(put.chunks).Some?
  {
    if bd.meta.None? then (Some(bd), Ended(PutKey(put), Failure(Io)))
    else
      (Some(bd.(meta := Some(bd.meta.value[SidecarName(put.name) := Json(put.Recorded())]))),
       Ended(PutKey(put), Success(())))
  }

  lemma CleansAlone(bd: BucketDir, put: PutReq, tmp: Str, sofar: Str)
    requires bd.objects.Some? && tmp !in bd.objects.value
    ensures Finish(Some(bd.(objects := Some(bd.objects.value[tmp := sofar]))), PutCleanup(put, tmp), tmp)
         == (Some(bd), Ended(PutKey(put), Failure(Io)))
  {
    assert bd.objects.value[tmp := sofar] - {tmp} == bd.objects.value;
  }

  lemma SidecarAlone(bd: BucketDir, put: PutReq, tmp: Str)
    requires put.Named() && IsTempName(tmp) && Received(put.chunks).Some?
    requires bd.meta.Some? ==> tmp !in bd.meta.value
    ensures Finish(Some(bd), MetaCreate(put), tmp) == AfterRename(bd, put)
  {
    hide EncodeKey, IsTempName, Received;
    NamesApart(put.key, tmp);
    if bd.meta.Some? {
      var files, m := bd.meta.value, Json(put.Recorded());
      var torn, whole := bd.(meta := Some(files[tmp := Torn])), bd.(meta := Some(files[tmp := m]));
      assert files[tmp := Torn][tmp := m] == files[tmp := m];
      assert Rename(files[tmp := m], tmp, SidecarName(put.name)) == files[SidecarName(put.name) := m];
      OneStep(Some(bd), MetaCreate(put), tmp, Some(torn), MetaWrite(put, tmp));
      OneStep(Some(torn), MetaWrite(put, tmp), tmp, Some(whole), MetaRename(put, tmp));
    }
  }

  lemma PutAlone(d: Disk, b: Str, put: PutReq, tmp: Str)
    requires put.Named() && Fresh(DirOf(d, b), tmp)
    ensures SameAlone(d, b, PutKey(put), tmp)
  {
    hide EncodeKey, IsTempName, Received;
    assert Received([]) == Some([]) by {
      NothingReceived(PutCreate(put));
      assert put.chunks[..0] == [];
    }
    if b in d.buckets && d.buckets[b].objects.Some? {
      var bd := d.buckets[b];
      assert put.chunks[..0] == [];
      WritesAlone(bd, put, tmp, 0);
      var created := bd.(objects := Some(bd.objects.value[tmp := []]));
      OneStep(Some(bd), PutCheck(put), tmp, Some(bd), PutCreate(put));
      OneStep(Some(bd), PutCreate(put), tmp, Some(created), PutWrite(put, tmp, 0));
    } else if b in d.buckets {
      var dir := Some(d.buckets[b]);
      OneStep(dir, PutCheck(put), tmp, dir, PutCreate(put));
      OneStep(dir, PutCreate(put), tmp, dir, Ended(PutKey(put), Failure(Io)));
    } else {
      OneStep(None, PutCheck(put), tmp, None, Ended(PutKey(put), Failure(NoSuchBucket)));
    }
  }

  lemma DeleteAlone(d: Disk, b: Str, key: Str, name: Str, tmp: Str)
    requires EncodeKey(key) == Success(name)
    ensures SameAlone(d, b, DeleteKey(key, name), tmp)
  {
    hide EncodeKey;
    var p := DeleteBody(key, name);
    var (dir', p') := Step(DirOf(d, b), p, tmp);
    OneStep(DirOf(d, b), p, tmp, dir', p');
    if p'.DeleteMeta? {
      var (dir'', p'') := Step(dir', p', tmp);
      OneStep(dir', p', tmp, dir'', p'');
    }
  }

  lemma FinishEnded(tmp: Str)
    ensures forall dir, request, r :: Finish(dir, Ended(request, r), tmp) == (dir, Ended(request, r))
  {
  }

  lemma DropWithoutObjects(bd: BucketDir, tmp: Str)
    requires bd.objects.None?
    ensures Finish(Some(bd), BucketMeta, tmp) ==
      if bd.meta.Some? && bd.meta.value != map[] then (Some(bd), Ended(DropBucket, Failure(BucketNotEmpty)))
      else (None, Ended(DropBucket, Success(())))
  {
    hide EncodeKey, Finish;
    FinishEnded(tmp);
    if bd.meta.Some? && bd.meta.value != map[] {
      OneStep(Some(bd), BucketMeta, tmp, Some(bd), BucketRecheck(false));
      OneStep(Some(bd), BucketRecheck(false), tmp, Some(bd), Ended(DropBucket, Failure(BucketNotEmpty)));
    } else {
      var bare := bd.(meta := None);
      OneStep(Some(bd), BucketMeta, tmp, Some(bare), BucketInfo);
      OneStep(Some(bare), BucketInfo, tmp, Some(bare.(info := false)), BucketDirectory);
      OneStep(Some(bare.(info := false)), BucketDirectory, tmp, None, Ended(DropBucket, Success(())));
    }
  }

  lemma DropAlone(d: Disk, b: Str, tmp: Str)
    ensures SameAlone(d, b, DropBucket, tmp)
  {
    hide EncodeKey, Finish;
    FinishEnded(tmp);
    var dir := DirOf(d, b);
    if b !in d.buckets {
      OneStep(dir, BucketCheck, tmp, dir, Ended(DropBucket, Failure(NoSuchBucket)));
    } else {
      OneStep(dir, BucketCheck, tmp, dir, BucketEmpty);
      if Objects(dir) != map[] {
        OneStep(dir, BucketEmpty, tmp, dir, Ended(DropBucket, Failure(BucketNotEmpty)));
      } else {
        OneStep(dir, BucketEmpty, tmp, dir, BucketObjects);
        var none := d.buckets[b].(objects := None);
        OneStep(dir, BucketObjects, tmp, Some(none), BucketMeta);
        DropWithoutObjects(none, tmp);
      }
    }
  }

  /** Run alone, a request's steps amount to the sequential operation. */
  lemma AloneIsSequential(d: Disk, b: Str, request: Request, tmp: Str)
    requires request.Named() && Fresh(DirOf(d, b), tmp)
    ensures SameAlone(d, b, request, tmp)
  {
    hide EncodeKey, IsTempName, SameAlone;
    match request
    case PutKey(put) => PutAlone(d, b, put, tmp);
    case DeleteKey(key, name) => DeleteAlone(d, b, key, name, tmp);
    case DropBucket => DropAlone(d, b, tmp);
  }
}
