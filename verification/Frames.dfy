/** What operations leave alone: the files of a key on any disk, well-formed or not, and the
    entries of the map along whole runs of the program. */
module Frames {
  import opened Wrappers
  import opened Bytes
  import opened KeyEncoding
  import opened Meta
  import opened DiskOps
  import opened ObjectMap

  /** What the disk holds under one name of a bucket. */
  datatype Files = Files(body: Option<Str>, sidecar: Option<Sidecar>)

  function Content<T>(files: map<Str, T>, f: Str): Option<T> {
    if f in files then Some(files[f]) else None
  }

  function FilesAt(d: Disk, b: Str, name: Str): Files {
    Files(Content(ObjectFiles(d, b), name), Content(MetaFiles(d, b), SidecarName(name)))
  }

  /** The operation is about this key: a put or delete of it, or the completion, under this key,
      of an upload to this bucket. */
  predicate About(d: Disk, op: Op, b: Str, key: Str) {
    match op
    case Put(b', key', _, _, _) => b' == b && key' == key
    case Delete(b', key') => b' == b && key' == key
    case Complete(key', id, _, _) =>
      key' == key && id in d.uploads && d.uploads[id].info.Some? && d.uploads[id].info.value.bucket == b
    case _ => false
  }

  lemma NamesDiffer(key: Str, other: Str)
    requires EncodeKey(key).Success? && key != other
    ensures EncodeKey(other) != EncodeKey(key)
    ensures EncodeKey(other).Success? ==> SidecarName(EncodeKey(other).value) != SidecarName(EncodeKey(key).value)
  {
    EncodedNames(key, other);
    if EncodeKey(other).Success? {
      StemOfSidecar(EncodeKey(key).value);
      StemOfSidecar(EncodeKey(other).value);
    }
  }

  lemma PutKeepsFiles(d: Disk, op: Op, b: Str, key: Str)
    requires op.Put? && EncodeKey(key).Success? && !About(d, op, b, key)
    ensures FilesAt(Run(d, op).0, b, EncodeKey(key).value) == FilesAt(d, b, EncodeKey(key).value)
  {
    hide EncodeKey, Received, SidecarName;
    if op.key != key {
      NamesDiffer(key, op.key);
    }
  }

  lemma DeleteKeepsFiles(d: Disk, op: Op, b: Str, key: Str)
    requires op.Delete? && EncodeKey(key).Success? && !About(d, op, b, key)
    ensures FilesAt(Run(d, op).0, b, EncodeKey(key).value) == FilesAt(d, b, EncodeKey(key).value)
  {
    hide EncodeKey, SidecarName;
    if op.key != key {
      NamesDiffer(key, op.key);
    }
  }

  lemma EnsureKeepsFiles(d: Disk, b: Str, b': Str, name: Str)
    ensures FilesAt(EnsureObjects(d, b'), b, name) == FilesAt(d, b, name)
    ensures b' in EnsureObjects(d, b').buckets && EnsureObjects(d, b').buckets[b'].objects.Some?
  {
    hide SidecarName;
  }

  lemma StoreKeepsFiles(d: Disk, b': Str, encoded: Str, body: Str, m: ObjectMeta, b: Str, name: Str)
    requires b' in d.buckets && d.buckets[b'].objects.Some?
    requires b' == b ==> encoded != name && SidecarName(encoded) != SidecarName(name)
    ensures FilesAt(DiskOps.Store(d, b', encoded, body, m).0, b, name) == FilesAt(d, b, name)
  {
    hide SidecarName;
  }

  lemma UploadsHoldNoFiles(d: Disk, uploads: map<Str, Staging>, b: Str, name: Str)
    ensures FilesAt(d.(uploads := uploads), b, name) == FilesAt(d, b, name)
  {
    hide SidecarName;
  }

  lemma CompleteKeepsFiles(d: Disk, op: Op, b: Str, key: Str)
    requires op.Complete? && EncodeKey(key).Success? && !About(d, op, b, key)
    ensures FilesAt(Run(d, op).0, b, EncodeKey(key).value) == FilesAt(d, b, EncodeKey(key).value)
  {
    hide EncodeKey, SidecarName, Assembled, DiskOps.Store, EnsureObjects, FilesAt;
    if op.key != key {
      NamesDiffer(key, op.key);
    }
    if op.id in d.uploads && d.uploads[op.id].info.Some? {
      var info, body := d.uploads[op.id].info.value, Assembled(d.uploads[op.id].parts, op.numbers);
      var d', name := EnsureObjects(d, info.bucket), EncodeKey(key).value;
      EnsureKeepsFiles(d, b, info.bucket, name);
      if EncodeKey(op.key).Success? && body.Some? {
        var m := ObjectMeta(
          info.key, |body.value|, TypeOr(info.contentType), Md5Parts(body.value, |op.numbers|), op.now);
        StoreKeepsFiles(d', info.bucket, EncodeKey(op.key).value, body.value, m, b, name);
        var stored := DiskOps.Store(d', info.bucket, EncodeKey(op.key).value, body.value, m).0;
        UploadsHoldNoFiles(stored, stored.uploads - {op.id}, b, name);
      }
    }
  }

  lemma BucketsKeepFiles(d: Disk, op: Op, b: Str, name: Str)
    requires op.CreateBucket? || op.DeleteBucket?
    ensures FilesAt(Run(d, op).0, b, name) == FilesAt(d, b, name)
  {
    hide SidecarName;
  }

  lemma RestKeepFiles(d: Disk, op: Op, b: Str, name: Str)
    requires !(op.Put? || op.Delete? || op.Complete? || op.CreateBucket? || op.DeleteBucket?)
    ensures FilesAt(Run(d, op).0, b, name) == FilesAt(d, b, name)
  {
    hide EncodeKey, Received, SidecarName;
  }

  /** No operation changes the files of a key it is not about, on any disk: not the deletion of a
      bucket with stray files, nor a completion that makes objects/ of a vanished bucket again. */
  lemma OpKeepsFiles(d: Disk, op: Op, b: Str, key: Str)
    requires EncodeKey(key).Success? && !About(d, op, b, key)
    ensures FilesAt(Run(d, op).0, b, EncodeKey(key).value) == FilesAt(d, b, EncodeKey(key).value)
  {
    hide Run, FilesAt, EncodeKey, About;
    if op.Put? {
      PutKeepsFiles(d, op, b, key);
    } else if op.Delete? {
      DeleteKeepsFiles(d, op, b, key);
    } else if op.Complete? {
      CompleteKeepsFiles(d, op, b, key);
    } else if op.CreateBucket? || op.DeleteBucket? {
      BucketsKeepFiles(d, op, b, EncodeKey(key).value);
    } else {
      RestKeepFiles(d, op, b, EncodeKey(key).value);
    }
  }

  /** No operation of the run is about the key when its turn comes. */
  predicate NoneAbout(d: Disk, ops: seq<Op>, b: Str, key: Str)
    decreases |ops|
  {
    ops == [] || (!About(d, ops[0], b, key) && NoneAbout(Run(d, ops[0]).0, ops[1..], b, key))
  }

  /** A run of any operations, on any disk, leaves the body and the sidecar of a key as they are
      unless one of the operations is about that key. */
  lemma {:induction false} RunKeepsFiles(d: Disk, ops: seq<Op>, b: Str, key: Str)
    requires EncodeKey(key).Success? && NoneAbout(d, ops, b, key)
    ensures FilesAt(RunAll(d, ops).0, b, EncodeKey(key).value) == FilesAt(d, b, EncodeKey(key).value)
    decreases |ops|
  {
    hide Run, FilesAt, EncodeKey, About;
    if ops != [] {
      OpKeepsFiles(d, ops[0], b, key);
      RunKeepsFiles(Run(d, ops[0]).0, ops[1..], b, key);
    }
  }

  // ---- Entries of the map ----

  /** The entry of a key is what its two files say. */
  lemma EntryFromFiles(d: Disk, b: Str, key: Str)
    requires Sound(d) && EncodeKey(key).Success? && ValidUtf8(key)
    ensures var files := FilesAt(d, b, EncodeKey(key).value);
      EntryAt(View(d), b, key) ==
        if files.body.Some? && files.sidecar.Some? && files.sidecar.value.Json?
        then Some(ObjectMap.Entry(files.body.value, files.sidecar.value.meta)) else None
  {
    hide EncodeKey, DecodeKey, SoundBucket, SoundObject, NamesFile, EntryOf, SidecarName;
    if b in d.buckets {
      SoundDirs(d.buckets[b]);
      LookUp(d.buckets[b], key);
      assert View(d).buckets[b] == ViewBucket(d.buckets[b]);
    }
  }

  /** In every run the entry of a key stays what it was unless an operation is about that key. */
  lemma RunKeepsEntries(d: Disk, ops: seq<Op>, b: Str, key: Str)
    requires Sound(d) && AdmissibleRun(d, ops) && NoneAbout(d, ops, b, key) && ValidUtf8(key)
    ensures Sound(RunAll(d, ops).0)
    ensures EntryAt(View(RunAll(d, ops).0), b, key) == EntryAt(View(d), b, key)
  {
    hide Run, RunAll, FilesAt, EncodeKey, DecodeKey, NoneAbout, Sound, View, AdmissibleRun;
    RunRefines(d, ops);
    if EncodeKey(key).Success? {
      RunKeepsFiles(d, ops, b, key);
      EntryFromFiles(d, b, key);
      EntryFromFiles(RunAll(d, ops).0, b, key);
    } else {
      NoEntry(d, b, key);
      NoEntry(RunAll(d, ops).0, b, key);
    }
  }

  lemma NoEntry(d: Disk, b: Str, key: Str)
    requires Sound(d) && EncodeKey(key).Failure?
    ensures EntryAt(View(d), b, key).None?
  {
    hide EncodeKey, DecodeKey, SoundBucket, SoundObject;
  }

  // ---- Recorded keys ----

  /** Metadata names the key it is stored under. */
  ghost predicate OwnNames(s: Store) {
    forall b, k :: b in s.buckets && k in s.buckets[b] ==> s.buckets[b][k].meta.key == k
  }

  lemma OwnNamesStep(s: Store, op: Op)
    requires OwnNames(s)
    requires op.Complete? && op.id in s.uploads ==> op.key == s.uploads[op.id].info.key
    ensures OwnNames(Ideal(s, op).0)
  {
    hide EncodeKey, Received, Assembled, ListBucket;
  }

  /** The completion is refused, or it is under the key the upload was created with. */
  predicate OwnCompletion(d: Disk, op: Op) {
    op.Complete? && op.id in d.uploads && d.uploads[op.id].info.Some? ==>
      Run(d, op).1.Refused? || op.key == d.uploads[op.id].info.value.key
  }

  predicate OwnCompletions(d: Disk, ops: seq<Op>)
    decreases |ops|
  {
    ops == [] || (OwnCompletion(d, ops[0]) && OwnCompletions(Run(d, ops[0]).0, ops[1..]))
  }

  lemma RefusedChangesNothing(s: Store, op: Op)
    requires op.Complete? && Ideal(s, op).1.Refused?
    ensures Ideal(s, op).0 == s
  {
    hide EncodeKey, Assembled;
  }

  lemma OtherNameSet(s: Store, op: Op)
    requires op.Complete? && op.id in s.uploads && !Ideal(s, op).1.Refused?
    ensures var (b, s') := (s.uploads[op.id].info.bucket, Ideal(s, op).0);
      b in s'.buckets && op.key in s'.buckets[b] && s'.buckets[b][op.key].meta.key == s.uploads[op.id].info.key
  {
    hide EncodeKey, Assembled;
  }

  /** One operation: metadata goes on naming the key it is stored under exactly when the operation
      is no completion that succeeds under another key than its upload's. */
  lemma NamesKeptExactly(d: Disk, op: Op)
    requires Sound(d) && Admissible(d, op) && OwnNames(View(d))
    ensures Sound(Run(d, op).0)
    ensures OwnNames(View(Run(d, op).0)) <==> OwnCompletion(d, op)
  {
    hide Run, Ideal, Sound, View, OwnNames, Simulates;
    StepRefines(d, op);
    SimulatesMeans(d, op);
    UploadsSeen(d, op);
    if op.Complete? && op.id in View(d).uploads {
      if Run(d, op).1.Refused? {
        RefusedChangesNothing(View(d), op);
      } else if op.key == View(d).uploads[op.id].info.key {
        OwnNamesStep(View(d), op);
      } else {
        OtherNameSet(View(d), op);
        NotOwn(Ideal(View(d), op).0, View(d).uploads[op.id].info.bucket, op.key);
      }
    } else {
      OwnNamesStep(View(d), op);
    }
  }

  lemma SimulatesMeans(d: Disk, op: Op)
    requires Sound(d) && Simulates(d, op)
    ensures Sound(Run(d, op).0) && (View(Run(d, op).0), Run(d, op).1) == Ideal(View(d), op)
  {
    hide Run, Ideal, Sound, View;
  }

  lemma NotOwn(s: Store, b: Str, k: Str)
    requires b in s.buckets && k in s.buckets[b] && s.buckets[b][k].meta.key != k
    ensures !OwnNames(s)
  {
  }

  lemma UploadsSeen(d: Disk, op: Op)
    requires Sound(d)
    ensures op.Complete? ==>
      && (op.id in View(d).uploads <==> op.id in d.uploads)
      && (op.id in d.uploads ==> d.uploads[op.id].info == Some(View(d).uploads[op.id].info))
  {
    hide SoundBucket;
  }

  /** Along the whole run metadata names the key it is stored under. */
  ghost predicate NamesAlong(d: Disk, ops: seq<Op>)
    requires Sound(d) && AdmissibleRun(d, ops)
    decreases |ops|
  {
    OwnNames(View(d)) &&
    (ops == [] || (StepRefines(d, ops[0]); SimulatesMeans(d, ops[0]); NamesAlong(Run(d, ops[0]).0, ops[1..])))
  }

  /** In every run of the program metadata names the key it is stored under, at every moment,
      exactly when it does so at the start and no completion succeeds under another key than its
      upload's. */
  lemma {:induction false} RunKeepsNamesExactly(d: Disk, ops: seq<Op>)
    requires Sound(d) && AdmissibleRun(d, ops)
    ensures NamesAlong(d, ops) <==> OwnNames(View(d)) && OwnCompletions(d, ops)
    decreases |ops|
  {
    hide Run, Ideal, Sound, View, OwnNames, OwnCompletion, Simulates;
    if ops != [] && OwnNames(View(d)) {
      NamesKeptExactly(d, ops[0]);
      RunKeepsNamesExactly(Run(d, ops[0]).0, ops[1..]);
      if !OwnCompletion(d, ops[0]) {
        NamesAlongNow(Run(d, ops[0]).0, ops[1..]);
      }
    }
  }

  lemma NamesAlongNow(d: Disk, ops: seq<Op>)
    requires Sound(d) && AdmissibleRun(d, ops)
    ensures NamesAlong(d, ops) ==> OwnNames(View(d))
  {
  }

  /** So they do at the end. */
  lemma {:induction false} RunKeepsNames(d: Disk, ops: seq<Op>)
    requires Sound(d) && AdmissibleRun(d, ops) && OwnCompletions(d, ops) && OwnNames(View(d))
    ensures Sound(RunAll(d, ops).0) && OwnNames(View(RunAll(d, ops).0))
    decreases |ops|
  {
    hide Run, Ideal, Sound, View, OwnNames, OwnCompletion;
    if ops != [] {
      NamesKeptExactly(d, ops[0]);
      RunKeepsNames(Run(d, ops[0]).0, ops[1..]);
    }
  }

  /** An upload of `a` without parts, completed as `b`: `b` is stored, and its metadata says `a`. */
  lemma CompletedUnderAnotherKey(d: Disk, bucket: Str, id: Str, now: int)
    requires Sound(d) && id in d.uploads && d.uploads[id].info.value.bucket == bucket && bucket in d.buckets
    requires d.uploads[id].info.value.key == [97]
    ensures var (d', reply) := Run(d, Complete([98], id, [], now));
      && Sound(d') && reply.Described? && reply.meta.key == [97]
      && EntryAt(View(d'), bucket, [98]) == Some(ObjectMap.Entry([], reply.meta))
      && HeadObject(d', bucket, [98]) == Success(reply.meta)
      && !OwnNames(View(d'))
  {
    hide Sound, EncodeKey, DecodeKey, Simulates;
    KeyB();
    StepRefines(d, Complete([98], id, [], now));
    SimulatesMeans(d, Complete([98], id, [], now));
    UploadsSeen(d, Complete([98], id, [], now));
    BucketNames(d);
    NothingAssembled(d.uploads[id].parts);
    var d' := Run(d, Complete([98], id, [], now)).0;
    FindRefines(d', bucket, [98]);
  }

  lemma KeyB()
    ensures ValidUtf8([98]) && EncodeKey([98]).Success?
  {
    AsciiIsUtf8([98]);
    assert [98][1..] == [];
  }

  lemma NothingAssembled(parts: map<int, Str>)
    ensures Assembled(parts, []) == Some([])
  {
  }
}
