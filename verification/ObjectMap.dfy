/** The store as clients see it: a map from bucket and key to bytes and metadata, and the
    uploads under way. Every sequence of operations on a well-formed disk answers as this map does. */
module ObjectMap {
  import opened Wrappers
  import opened Bytes
  import opened KeyEncoding
  import opened Meta
  import opened Ranges
  import opened DiskOps
  import opened Collapsing
  import opened Paging
  import Listing

  datatype Entry = Entry(bytes: Str, meta: ObjectMeta)

  type Bucket = map<Str, Entry>

  datatype Upload = Upload(info: UploadInfo, parts: map<int, Str>)

  datatype Store = Store(buckets: map<Str, Bucket>, uploads: map<Str, Upload>)

  // ---- Well-formed disks ----

  /** The metadata belongs to these bytes. */
  predicate Describes(m: ObjectMeta, body: Str) {
    m.size == |body| && m.etag.of == body
  }

  /** An object file is named by its key's encoding, and has a complete sidecar. */
  predicate SoundObject(dir: BucketDir, name: Str)
    requires dir.objects.Some? && dir.meta.Some? && name in dir.objects.value
  {
    var m := ReadSidecar(dir.meta.value, SidecarName(name));
    && name != []
    && DecodeKey(name).Success?
    && EncodeKey(DecodeKey(name).value) == Success(name)
    && m.Success? && Describes(m.value, dir.objects.value[name])
  }

  ghost predicate SoundBucket(dir: BucketDir) {
    && dir.objects.Some? && dir.meta.Some? && dir.info
    && (forall name :: name in dir.objects.value ==> SoundObject(dir, name))
    && (forall file :: file in dir.meta.value ==> OwnedSidecar(dir.objects.value, file))
  }

  predicate OwnedSidecar(objects: map<Str, Str>, file: Str) {
    Stem(file) in objects && file == SidecarName(Stem(file))
  }

  predicate SoundStaging(staging: Staging) {
    staging.info.Some? && staging.temps == map[] && staging.infoTemps == map[]
  }

  ghost predicate Sound(d: Disk) {
    && (forall b :: b in d.buckets ==> SoundBucket(d.buckets[b]))
    && (forall id :: id in d.uploads ==> SoundStaging(d.uploads[id]))
  }

  // ---- The abstraction ----

  /** The keys of a bucket directory. */
  function KeysOf(dir: BucketDir): set<Str>
    requires dir.objects.Some?
  {
    set name | name in dir.objects.value && DecodeKey(name).Success? :: DecodeKey(name).value
  }

  ghost function ViewBucket(dir: BucketDir): (m: Bucket)
    requires SoundBucket(dir)
    ensures forall k :: k in m <==> NamesFile(dir, k)
    ensures forall k :: k in m ==> NamesFile(dir, k) && m[k] == EntryOf(dir, EncodeKey(k).value)
  {
    KeysByName(dir);
    map k | k in KeysOf(dir) :: EntryOf(dir, EncodeKey(k).value)
  }

  /** The key's encoding is a file of objects/ that decodes to the key. */
  predicate NamesFile(dir: BucketDir, key: Str)
    requires dir.objects.Some?
  {
    && EncodeKey(key).Success? && EncodeKey(key).value in dir.objects.value
    && DecodeKey(EncodeKey(key).value) == Success(key)
  }

  ghost function EntryOf(dir: BucketDir, name: Str): Entry
    requires SoundBucket(dir) && name in dir.objects.value
  {
    assert SoundObject(dir, name);
    Entry(dir.objects.value[name], ReadSidecar(dir.meta.value, SidecarName(name)).value)
  }

  lemma KeysByName(dir: BucketDir)
    requires SoundBucket(dir)
    ensures forall k :: k in KeysOf(dir) <==> NamesFile(dir, k)
  {
    forall k | k in KeysOf(dir) ensures NamesFile(dir, k) {
      var name :| name in dir.objects.value && DecodeKey(name).Success? && DecodeKey(name).value == k;
      assert SoundObject(dir, name);
    }
  }

  ghost function View(d: Disk): Store
    requires Sound(d)
  {
    Store(map b | b in d.buckets :: ViewBucket(d.buckets[b]),
          map id | id in d.uploads :: Upload(d.uploads[id].info.value, d.uploads[id].parts))
  }

  // ---- The operations on the map ----

  function SetEntry(s: Store, b: Str, key: Str, e: Entry): Store
    requires b in s.buckets
  {
    s.(buckets := s.buckets[b := s.buckets[b][key := e]])
  }

  function Find(s: Store, b: Str, key: Str): Result<Entry> {
    if EncodeKey(key).Failure? then Failure(EncodeKey(key).error)
    else if b in s.buckets && key in s.buckets[b] then Success(s.buckets[b][key])
    else Failure(NoSuchKey)
  }

  datatype Op =
    | CreateBucket(bucket: Str)
    | DeleteBucket(bucket: Str)
    | Put(bucket: Str, key: Str, chunks: seq<Chunk>, contentType: Option<Str>, now: int)
    | Get(bucket: Str, key: Str, range: Option<ByteRange>)
    | Head(bucket: Str, key: Str)
    | Delete(bucket: Str, key: Str)
    | List(bucket: Str, names: seq<Str>, req: Listing.Request)
    | CreateUpload(bucket: Str, key: Str, contentType: Option<Str>, id: Str)
    | UploadPart(id: Str, number: int, chunks: seq<Chunk>)
    | Complete(key: Str, id: Str, numbers: seq<int>, now: int)
    | Abort(id: Str)

  datatype Reply =
    | Done
    | Described(meta: ObjectMeta)
    | Streamed(meta: ObjectMeta, bytes: Str)
    | Listed(response: Listing.Response)
    | Started(id: Str)
    | Tagged(etag: ETag)
    | Refused(error: Error)

  function ReplyOf<T>(r: Result<T>, ok: T -> Reply): Reply {
    if r.Success? then ok(r.value) else Refused(r.error)
  }

  /** What the program does. */
  function Run(d: Disk, op: Op): (Disk, Reply) {
    match op
    case CreateBucket(b) =>
      var (d', r) := DiskOps.CreateBucket(d, b); (d', ReplyOf(r, _ => Done))
    case DeleteBucket(b) =>
      var (d', r) := DiskOps.DeleteBucket(d, b); (d', ReplyOf(r, _ => Done))
    case Put(b, key, chunks, contentType, now) =>
      var (d', r) := DiskOps.PutObject(d, b, key, chunks, contentType, now); (d', ReplyOf(r, m => Described(m)))
    case Get(b, key, range) =>
      (d, ReplyOf(DiskOps.GetObject(d, b, key, range), (x: (ObjectMeta, Str)) => Streamed(x.0, x.1)))
    case Head(b, key) =>
      (d, ReplyOf(DiskOps.HeadObject(d, b, key), m => Described(m)))
    case Delete(b, key) =>
      var (d', r) := DiskOps.DeleteObject(d, b, key); (d', ReplyOf(r, _ => Done))
    case List(b, names, req) =>
      (d, ReplyOf(DiskOps.ListObjects(d, b, names, req), x => Listed(x)))
    case CreateUpload(b, key, contentType, id) =>
      var (d', r) := DiskOps.CreateUpload(d, b, key, contentType, id); (d', ReplyOf(r, x => Started(x)))
    case UploadPart(id, number, chunks) =>
      var (d', r) := DiskOps.UploadPart(d, id, number, chunks); (d', ReplyOf(r, x => Tagged(x)))
    case Complete(key, id, numbers, now) =>
      var (d', r) := DiskOps.CompleteUpload(d, key, id, numbers, now); (d', ReplyOf(r, m => Described(m)))
    case Abort(id) =>
      var (d', r) := DiskOps.AbortUpload(d, id); (d', ReplyOf(r, _ => Done))
  }

  /** What a map would do. */
  ghost function Ideal(s: Store, op: Op): (Store, Reply) {
    match op
    case CreateBucket(b) =>
      if b in s.buckets then (s, Refused(BucketAlreadyExists))
      else (s.(buckets := s.buckets[b := map[]]), Done)
    case DeleteBucket(b) =>
      if b !in s.buckets then (s, Refused(NoSuchBucket))
      else if s.buckets[b] != map[] then (s, Refused(BucketNotEmpty))
      else (s.(buckets := s.buckets - {b}), Done)
    case Put(b, key, chunks, contentType, now) =>
      if b !in s.buckets then (s, Refused(NoSuchBucket))
      else if EncodeKey(key).Failure? then (s, Refused(EncodeKey(key).error))
      else if Received(chunks).None? || key == [] then (s, Refused(Io))
      else
        var body := Received(chunks).value;
        var m := ObjectMeta(key, |body|, TypeOr(contentType), Md5(body), now);
        (SetEntry(s, b, key, Entry(body, m)), Described(m))
    case Get(b, key, range) =>
      var e := Find(s, b, key);
      if e.Failure? then (s, Refused(e.error))
      else if range.None? then (s, Streamed(e.value.meta, e.value.bytes))
      else
        var w := Resolve(range.value, |e.value.bytes|);
        if w.None? then (s, Refused(RangeNotSatisfiable))
        else
          ResolveInside(range.value, |e.value.bytes|);
          (s, Streamed(e.value.meta, e.value.bytes[w.value.start..w.value.start + w.value.length]))
    case Head(b, key) =>
      var e := Find(s, b, key);
      (s, if e.Success? then Described(e.value.meta) else Refused(e.error))
    case Delete(b, key) =>
      var e := Find(s, b, key);
      if key == [] && b in s.buckets then (s, Refused(Io))
      else if e.Failure? then (s, Refused(e.error))
      else (s.(buckets := s.buckets[b := s.buckets[b] - {key}]), Done)
    case List(b, _, req) =>
      if b !in s.buckets then (s, Refused(NoSuchBucket))
      else if req.token == Some(Listing.Malformed) then (s, Refused(InvalidContinuationToken))
      else (s, Listed(ListBucket(s.buckets[b], req)))
    case CreateUpload(b, key, contentType, id) =>
      if b !in s.buckets then (s, Refused(NoSuchBucket))
      else (s.(uploads := s.uploads[id := Upload(UploadInfo(b, key, contentType), map[])]), Started(id))
    case UploadPart(id, number, chunks) =>
      if number <= 0 then (s, Refused(InvalidPartNumber))
      else if id !in s.uploads then (s, Refused(NoSuchUpload))
      else if Received(chunks).None? then (s, Refused(Io))
      else
        var u, part := s.uploads[id], Received(chunks).value;
        (s.(uploads := s.uploads[id := u.(parts := u.parts[number := part])]), Tagged(Md5(part)))
    case Complete(key, id, numbers, now) =>
      if id !in s.uploads then (s, Refused(NoSuchUpload))
      else if EncodeKey(key).Failure? then (s, Refused(EncodeKey(key).error))
      else
        var info, body := s.uploads[id].info, Assembled(s.uploads[id].parts, numbers);
        if body.None? || key == [] || info.bucket !in s.buckets then (s, Refused(Io))
        else
          var m := ObjectMeta(
            info.key, |body.value|, TypeOr(info.contentType), Md5Parts(body.value, |numbers|), now);
          (SetEntry(s, info.bucket, key, Entry(body.value, m)).(uploads := s.uploads - {id}), Described(m))
    case Abort(id) =>
      if id !in s.uploads then (s, Refused(NoSuchUpload))
      else (s.(uploads := s.uploads - {id}), Done)
  }

  lemma ResolveInside(range: ByteRange, size: nat)
    ensures var w := Resolve(range, size); w.Some? ==> w.value.start + w.value.length <= size
  {
  }

  /** The keys of a set in increasing order. */
  ghost function Ordered(keys: set<Str>): (r: seq<Str>)
    ensures StrictlySorted(r) && forall k :: k in r <==> k in keys
  {
    OrderedExists(keys);
    var r :| StrictlySorted(r) && forall k :: k in r <==> k in keys;
    r
  }

  lemma {:induction false} OrderedExists(keys: set<Str>)
    ensures exists r :: StrictlySorted(r) && forall k :: k in r <==> k in keys
  {
    if keys == {} {
      assert StrictlySorted([]);
    } else {
      var x :| x in keys;
      OrderedExists(keys - {x});
      var r :| StrictlySorted(r) && forall k :: k in r <==> k in keys - {x};
      var s := Retain(r, k => Lt(k, x)) + [x] + Retain(r, k => Lt(x, k));
      RetainSorted(r, k => Lt(k, x));
      RetainSorted(r, k => Lt(x, k));
      AroundSorted(Retain(r, k => Lt(k, x)), x, Retain(r, k => Lt(x, k)));
      forall k ensures k in s <==> k in keys {
        LtTotal(k, x);
      }
    }
  }

  lemma AroundSorted(a: seq<Str>, x: Str, b: seq<Str>)
    requires StrictlySorted(a) && StrictlySorted(b)
    requires (forall k :: k in a ==> Lt(k, x)) && (forall k :: k in b ==> Lt(x, k))
    ensures StrictlySorted(a + [x] + b)
  {
    var s := a + [x] + b;
    forall i, j | 0 <= i < j < |s| ensures Lt(s[i], s[j]) {
      if i < |a| < j {
        LtTransitive(s[i], x, s[j]);
      }
    }
  }

  lemma PageObjectsAreKeys(sc: Scope, keys: seq<Str>, after: Option<Str>, maxKeys: Option<nat>)
    requires StrictlySorted(keys)
    ensures forall k :: k in Listing.ObjectKeys(PageOf(sc, keys, after, maxKeys).items) ==> k in keys
  {
    var page := PageOf(sc, keys, after, maxKeys);
    Listing.ObjectKeysElements(page.items);
    forall k | Object(k) in page.items ensures k in keys {
      var k' := PageSource(sc, keys, after, maxKeys, Object(k));
    }
  }

  /** The page of the bucket's keys, with the metadata of its direct objects. */
  ghost function ListBucket(m: Bucket, req: Listing.Request): Listing.Response
    requires req.token != Some(Listing.Malformed)
  {
    var page := PageOf(req.ListScope(), Ordered(m.Keys), req.StartAfter(), req.maxKeys);
    var keys := Listing.ObjectKeys(page.items);
    PageObjectsAreKeys(req.ListScope(), Ordered(m.Keys), req.StartAfter(), req.maxKeys);
    Listing.Response(
      seq(|keys|, i requires 0 <= i < |keys| => m[keys[i]].meta),
      Listing.PrefixNames(page.items), page.next, page.next.Some?)
  }

  // ---- Simulation ----

  /** A bucket directory after an object and its sidecar have been written. */
  function WithObject(dir: BucketDir, name: Str, body: Str, m: ObjectMeta): BucketDir
    requires dir.objects.Some? && dir.meta.Some?
  {
    dir.(objects := Some(dir.objects.value[name := body]), meta := Some(dir.meta.value[SidecarName(name) := Json(m)]))
  }

  function WithoutObject(dir: BucketDir, name: Str): BucketDir
    requires dir.objects.Some? && dir.meta.Some?
  {
    dir.(objects := Some(dir.objects.value - {name}), meta := Some(dir.meta.value - {SidecarName(name)}))
  }

  lemma PutSound(dir: BucketDir, key: Str, body: Str, m: ObjectMeta)
    requires SoundBucket(dir) && ValidUtf8(key) && EncodeKey(key).Success? && key != [] && Describes(m, body)
    ensures SoundBucket(WithObject(dir, EncodeKey(key).value, body, m))
  {
    hide EncodeKey, DecodeKey;
    var name := EncodeKey(key).value;
    var dir' := WithObject(dir, name, body, m);
    EncodeDecode(key);
    EncodedNames(key, key);
    StemOfSidecar(name);
    forall other | other in dir'.objects.value ensures SoundObject(dir', other) {
      StemOfSidecar(other);
      if other != name {
        assert SoundObject(dir, other);
      }
    }
    forall file | file in dir'.meta.value ensures OwnedSidecar(dir'.objects.value, file) {
      if file != SidecarName(name) {
        assert OwnedSidecar(dir.objects.value, file);
      }
    }
  }

  /** Files of other keys are out of reach of a write or a removal. */
  lemma OtherKeys(dir: BucketDir, dir': BucketDir, key: Str, k: Str)
    requires SoundBucket(dir) && SoundBucket(dir') && EncodeKey(key).Success? && k != key
    requires forall n :: n != EncodeKey(key).value ==> (n in dir.objects.value <==> n in dir'.objects.value)
    requires forall n :: n != EncodeKey(key).value && n in dir.objects.value ==>
      dir.objects.value[n] == dir'.objects.value[n]
    requires forall f :: f != SidecarName(EncodeKey(key).value) && f in dir.meta.value ==>
      f in dir'.meta.value && dir.meta.value[f] == dir'.meta.value[f]
    ensures NamesFile(dir', k) <==> NamesFile(dir, k)
    ensures NamesFile(dir, k) ==> EntryOf(dir', EncodeKey(k).value) == EntryOf(dir, EncodeKey(k).value)
  {
    hide EncodeKey, DecodeKey;
    if EncodeKey(k).Success? {
      var name := EncodeKey(k).value;
      EncodedNames(k, key);
      StemOfSidecar(name);
      StemOfSidecar(EncodeKey(key).value);
      if NamesFile(dir, k) {
        assert SoundObject(dir, name);
      }
    }
  }

  lemma PutOwnKey(dir: BucketDir, key: Str, body: Str, m: ObjectMeta)
    requires SoundBucket(dir) && ValidUtf8(key) && EncodeKey(key).Success?
    requires SoundBucket(WithObject(dir, EncodeKey(key).value, body, m))
    ensures var dir' := WithObject(dir, EncodeKey(key).value, body, m);
      dir'.objects.Some? && NamesFile(dir', key) && EntryOf(dir', EncodeKey(key).value) == Entry(body, m)
  {
    hide EncodeKey, DecodeKey, SoundObject;
    EncodeDecode(key);
  }

  lemma PutOtherKey(dir: BucketDir, key: Str, body: Str, m: ObjectMeta, k: Str)
    requires SoundBucket(dir) && EncodeKey(key).Success? && k != key
    requires SoundBucket(WithObject(dir, EncodeKey(key).value, body, m))
    ensures var dir' := WithObject(dir, EncodeKey(key).value, body, m);
      && dir.objects.Some? && dir'.objects.Some?
      && (NamesFile(dir', k) <==> NamesFile(dir, k))
      && (NamesFile(dir, k) ==> EntryOf(dir', EncodeKey(k).value) == EntryOf(dir, EncodeKey(k).value))
  {
    hide EncodeKey, DecodeKey, SoundObject, EntryOf, NamesFile;
    OtherKeys(dir, WithObject(dir, EncodeKey(key).value, body, m), key, k);
  }

  lemma PutView(dir: BucketDir, key: Str, body: Str, m: ObjectMeta)
    requires SoundBucket(dir) && ValidUtf8(key) && EncodeKey(key).Success? && key != [] && Describes(m, body)
    requires SoundBucket(WithObject(dir, EncodeKey(key).value, body, m))
    ensures ViewBucket(WithObject(dir, EncodeKey(key).value, body, m)) == ViewBucket(dir)[key := Entry(body, m)]
  {
    hide EncodeKey, DecodeKey, SoundObject, EntryOf;
    var dir' := WithObject(dir, EncodeKey(key).value, body, m);
    PutOwnKey(dir, key, body, m);
    forall k | k != key
      ensures NamesFile(dir', k) <==> NamesFile(dir, k)
      ensures NamesFile(dir, k) ==> EntryOf(dir', EncodeKey(k).value) == EntryOf(dir, EncodeKey(k).value)
    {
      PutOtherKey(dir, key, body, m, k);
    }
  }

  lemma DeleteSound(dir: BucketDir, key: Str)
    requires SoundBucket(dir) && NamesFile(dir, key)
    ensures SoundBucket(WithoutObject(dir, EncodeKey(key).value))
  {
    hide EncodeKey, DecodeKey;
    var name := EncodeKey(key).value;
    var dir' := WithoutObject(dir, name);
    StemOfSidecar(name);
    forall other | other in dir'.objects.value ensures SoundObject(dir', other) {
      StemOfSidecar(other);
      assert SoundObject(dir, other);
    }
    forall file | file in dir'.meta.value ensures OwnedSidecar(dir'.objects.value, file) {
      assert OwnedSidecar(dir.objects.value, file);
    }
  }

  lemma DeleteView(dir: BucketDir, key: Str)
    requires SoundBucket(dir) && NamesFile(dir, key)
    requires SoundBucket(WithoutObject(dir, EncodeKey(key).value))
    ensures ViewBucket(WithoutObject(dir, EncodeKey(key).value)) == ViewBucket(dir) - {key}
  {
    hide EncodeKey, DecodeKey, SoundObject;
    var dir' := WithoutObject(dir, EncodeKey(key).value);
    forall k | k != key
      ensures NamesFile(dir', k) <==> NamesFile(dir, k)
      ensures NamesFile(dir, k) ==> EntryOf(dir', EncodeKey(k).value) == EntryOf(dir, EncodeKey(k).value)
    {
      OtherKeys(dir, dir', key, k);
    }
    assert !NamesFile(dir', key);
  }

  /** Changing one bucket directory changes one bucket of the map. */
  lemma ViewOneBucket(d: Disk, b: Str, dir: BucketDir)
    requires Sound(d) && SoundBucket(dir)
    ensures var d' := d.(buckets := d.buckets[b := dir]);
      Sound(d') && View(d') == View(d).(buckets := View(d).buckets[b := ViewBucket(dir)])
  {
    hide SoundBucket;
    var d' := d.(buckets := d.buckets[b := dir]);
    assert View(d').buckets == View(d).buckets[b := ViewBucket(dir)];
    assert View(d').uploads == View(d).uploads;
  }

  lemma ViewOneUpload(d: Disk, id: Str, staging: Staging)
    requires Sound(d) && SoundStaging(staging)
    ensures var d' := WithStaging(d, id, staging);
      Sound(d') && View(d') == View(d).(uploads := View(d).uploads[id := Upload(staging.info.value, staging.parts)])
  {
    hide SoundBucket;
    var d' := WithStaging(d, id, staging);
    assert View(d').buckets == View(d).buckets;
    assert View(d').uploads == View(d).uploads[id := Upload(staging.info.value, staging.parts)];
  }

  lemma ViewDropUpload(d: Disk, id: Str)
    requires Sound(d)
    ensures var d' := d.(uploads := d.uploads - {id});
      Sound(d') && View(d') == View(d).(uploads := View(d).uploads - {id})
  {
    hide SoundBucket;
    var d' := d.(uploads := d.uploads - {id});
    assert View(d').buckets == View(d).buckets;
    assert View(d').uploads == View(d).uploads - {id};
  }

  lemma StoreRefines(d: Disk, b: Str, key: Str, body: Str, m: ObjectMeta)
    requires Sound(d) && b in d.buckets && ValidUtf8(key) && EncodeKey(key).Success? && Describes(m, body)
    requires SoundBucket(d.buckets[b])
    ensures var (d', r) := DiskOps.Store(d, b, EncodeKey(key).value, body, m);
      && Sound(d')
      && (if key == [] then d' == d && r == Failure(Io)
          else r == Success(m) && View(d') == SetEntry(View(d), b, key, Entry(body, m)))
  {
    hide EncodeKey, DecodeKey, SoundObject;
    EncodedNames(key, key);
    if key != [] {
      var dir, name := d.buckets[b], EncodeKey(key).value;
      PutSound(dir, key, body, m);
      PutView(dir, key, body, m);
      ViewOneBucket(d, b, WithObject(dir, name, body, m));
      var (d', _) := DiskOps.Store(d, b, name, body, m);
      assert d'.buckets == d.buckets[b := WithObject(dir, name, body, m)];
    }
  }

  lemma PutRefines(d: Disk, b: Str, key: Str, chunks: seq<Chunk>, contentType: Option<Str>, now: int)
    requires Sound(d) && ValidUtf8(key)
    ensures Simulates(d, Put(b, key, chunks, contentType, now))
  {
    hide EncodeKey, DecodeKey, SoundObject, Received, DiskOps.Store;
    if b in d.buckets {
      assert SoundBucket(d.buckets[b]);
      if EncodeKey(key).Success? && Received(chunks).Some? {
        var body := Received(chunks).value;
        StoreRefines(d, b, key, body, ObjectMeta(key, |body|, TypeOr(contentType), Md5(body), now));
      }
    }
  }

  /** The disk answers as the map does, and ends in the state that the map ends in. */
  ghost predicate Simulates(d: Disk, op: Op)
    requires Sound(d)
  {
    var (d', reply) := Run(d, op);
    Sound(d') && (View(d'), reply) == Ideal(View(d), op)
  }

  lemma CreateBucketRefines(d: Disk, b: Str)
    requires Sound(d)
    ensures Simulates(d, CreateBucket(b))
  {
    hide EncodeKey, DecodeKey, SoundObject;
    var empty := BucketDir(Some(map[]), Some(map[]), true);
    if b !in d.buckets {
      ViewOneBucket(d, b, empty);
      assert ViewBucket(empty) == map[];
    }
  }

  lemma DeleteBucketRefines(d: Disk, b: Str)
    requires Sound(d)
    ensures Simulates(d, DeleteBucket(b))
  {
    hide EncodeKey, DecodeKey, SoundObject, SoundBucket;
    if b in d.buckets {
      var dir := d.buckets[b];
      SoundDirs(dir);
      EmptyView(dir);
      if dir.objects.value == map[] {
        var d' := d.(buckets := d.buckets - {b});
        assert View(d').buckets == View(d).buckets - {b};
        assert View(d').uploads == View(d).uploads;
      }
    }
  }

  lemma EmptyView(dir: BucketDir)
    requires SoundBucket(dir)
    ensures dir.objects.value == map[] <==> ViewBucket(dir) == map[]
    ensures dir.objects.value == map[] ==> dir.meta.value == map[]
  {
    hide EncodeKey, DecodeKey;
    var m := ViewBucket(dir);
    if dir.objects.value != map[] {
      var name :| name in dir.objects.value;
      assert SoundObject(dir, name);
      assert DecodeKey(name).value in m;
    }
    forall file ensures dir.objects.value == map[] ==> file !in dir.meta.value {
      assert file in dir.meta.value ==> OwnedSidecar(dir.objects.value, file);
    }
  }

  /** Looking a key up in a bucket directory and in its map. */
  lemma LookUp(dir: BucketDir, key: Str)
    requires SoundBucket(dir) && ValidUtf8(key)
    ensures dir.meta.Some? && dir.objects.Some?
    ensures EncodeKey(key).Failure? ==> Listing.MetaOf(dir.meta.value, key) == Failure(EncodeKey(key).error)
    ensures EncodeKey(key).Success? ==> (key in ViewBucket(dir) <==> EncodeKey(key).value in dir.objects.value)
    ensures EncodeKey(key).Success? && key !in ViewBucket(dir) ==>
      Listing.MetaOf(dir.meta.value, key) == Failure(NoSuchKey)
    ensures key in ViewBucket(dir) ==>
      && var e := ViewBucket(dir)[key];
      && EncodeKey(key).Success? && key != []
      && Listing.MetaOf(dir.meta.value, key) == Success(e.meta)
      && EncodeKey(key).value in dir.objects.value && e.bytes == dir.objects.value[EncodeKey(key).value]
      && Describes(e.meta, e.bytes)
  {
    hide EncodeKey, DecodeKey;
    if EncodeKey(key).Success? {
      var name := EncodeKey(key).value;
      EncodeDecode(key);
      EncodedNames(key, key);
      StemOfSidecar(name);
      assert SidecarName(name) in dir.meta.value ==> OwnedSidecar(dir.objects.value, SidecarName(name));
      assert name in dir.objects.value ==> SoundObject(dir, name);
    }
  }

  /** Looking a key up on the disk and in the map. */
  lemma FindRefines(d: Disk, b: Str, key: Str)
    requires Sound(d) && ValidUtf8(key)
    ensures var e := Find(View(d), b, key);
      && DiskOps.HeadObject(d, b, key) == (if e.Success? then Success(e.value.meta) else Failure(e.error))
      && (EncodeKey(key).Success? ==> (e.Success? <==> EncodeKey(key).value in ObjectFiles(d, b)))
      && (e.Success? ==> key != [] && e.value.bytes == ObjectFiles(d, b)[EncodeKey(key).value]
                         && Describes(e.value.meta, e.value.bytes))
  {
    hide EncodeKey, DecodeKey, SoundBucket, SoundObject, NamesFile, EntryOf;
    if b in d.buckets {
      SoundDirs(d.buckets[b]);
      LookUp(d.buckets[b], key);
    }
  }

  lemma WindowInside(body: Str, start: nat, length: nat)
    requires start + length <= |body|
    ensures Window(body, start, length) == body[start..start + length]
  {
    assert length < |body[start..]| ==> body[start..][..length] == body[start..start + length];
  }

  lemma ReadsRefine(d: Disk, b: Str, key: Str, range: Option<ByteRange>)
    requires Sound(d) && ValidUtf8(key)
    ensures Simulates(d, Get(b, key, range)) && Simulates(d, Head(b, key))
  {
    hide EncodeKey, DecodeKey, SoundBucket, View;
    FindRefines(d, b, key);
    var e := Find(View(d), b, key);
    if e.Success? && range.Some? {
      ResolveInside(range.value, |e.value.bytes|);
      var w := Resolve(range.value, |e.value.bytes|);
      if w.Some? {
        WindowInside(e.value.bytes, w.value.start, w.value.length);
      }
    }
  }

  lemma DeleteFound(d: Disk, b: Str, key: Str)
    requires Sound(d) && ValidUtf8(key) && Find(View(d), b, key).Success?
    ensures Simulates(d, Delete(b, key))
  {
    hide EncodeKey, DecodeKey, SoundObject, SoundBucket;
    FindRefines(d, b, key);
    var dir, name := d.buckets[b], EncodeKey(key).value;
    assert SoundBucket(dir);
    EncodedNames(key, key);
    EncodeDecode(key);
    SoundDirs(dir);
    DeleteSound(dir, key);
    DeleteView(dir, key);
    ViewOneBucket(d, b, WithoutObject(dir, name));
    var (d', _) := DiskOps.DeleteObject(d, b, key);
    assert d'.buckets == d.buckets[b := WithoutObject(dir, name)];
  }

  lemma SoundDirs(dir: BucketDir)
    requires SoundBucket(dir)
    ensures dir.objects.Some? && dir.meta.Some?
  {
  }

  lemma DeleteRefines(d: Disk, b: Str, key: Str)
    requires Sound(d) && ValidUtf8(key)
    ensures Simulates(d, Delete(b, key))
  {
    hide EncodeKey, DecodeKey, SoundObject, SoundBucket, View;
    EmptyKeyEncodes();
    FindRefines(d, b, key);
    if Find(View(d), b, key).Success? {
      DeleteFound(d, b, key);
    } else {
      if b in d.buckets {
        SoundDirs(d.buckets[b]);
      }
      EmptyNameIffEmptyKey(key);
      assert b in View(d).buckets <==> b in d.buckets by {
        BucketNames(d);
      }
    }
  }

  lemma BucketNames(d: Disk)
    requires Sound(d)
    ensures View(d).buckets.Keys == d.buckets.Keys
  {
  }

  lemma EmptyNameIffEmptyKey(key: Str)
    ensures EncodeKey(key).Success? ==> (EncodeKey(key).value == [] <==> key == [])
  {
    if EncodeKey(key).Success? {
      EncodedNames(key, key);
    }
  }

  lemma CreateUploadRefines(d: Disk, b: Str, key: Str, contentType: Option<Str>, id: Str)
    requires Sound(d)
    ensures Simulates(d, CreateUpload(b, key, contentType, id))
  {
    hide SoundBucket;
    ViewOneUpload(d, id, Staging(Some(UploadInfo(b, key, contentType)), map[], map[], map[]));
  }

  lemma UploadPartRefines(d: Disk, id: Str, number: int, chunks: seq<Chunk>)
    requires Sound(d)
    ensures Simulates(d, UploadPart(id, number, chunks))
  {
    hide SoundBucket, Received;
    if id in d.uploads && Received(chunks).Some? {
      var staging := d.uploads[id];
      ViewOneUpload(d, id, staging.(parts := staging.parts[number := Received(chunks).value]));
    }
  }

  lemma AbortRefines(d: Disk, id: Str)
    requires Sound(d)
    ensures Simulates(d, Abort(id))
  {
    hide SoundBucket;
    ViewDropUpload(d, id);
  }

  lemma CompleteRefines(d: Disk, key: Str, id: Str, numbers: seq<int>, now: int)
    requires Sound(d) && ValidUtf8(key)
    requires id in d.uploads ==> d.uploads[id].info.value.bucket in d.buckets
    ensures Simulates(d, Complete(key, id, numbers, now))
  {
    hide EncodeKey, DecodeKey, SoundBucket, Assembled, ViewBucket;
    if id in d.uploads {
      var info, body := d.uploads[id].info.value, Assembled(d.uploads[id].parts, numbers);
      SoundDirs(d.buckets[info.bucket]);
      BucketNames(d);
      if EncodeKey(key).Success? && body.Some? {
        var m := ObjectMeta(
          info.key, |body.value|, TypeOr(info.contentType), Md5Parts(body.value, |numbers|), now);
        StoreRefines(d, info.bucket, key, body.value, m);
        var (stored, r) := DiskOps.Store(d, info.bucket, EncodeKey(key).value, body.value, m);
        ViewDropUpload(stored, id);
      }
    }
  }

  // ---- Listing ----

  lemma NamesOnce(dir: BucketDir, names: seq<Str>)
    requires SoundBucket(dir) && multiset(names) == multiset(dir.objects.value.Keys)
    ensures Listing.DistinctKeys(names)
    ensures forall n :: n in names <==> n in dir.objects.value
  {
    hide EncodeKey, DecodeKey;
    var files := dir.objects.value.Keys;
    forall n ensures n in names <==> n in files {
      assert n in names <==> n in multiset(names);
      assert n in files <==> n in multiset(files);
    }
    forall i, j | 0 <= i < j < |names| && DecodeKey(names[i]).Success?
      ensures DecodeKey(names[i]) != DecodeKey(names[j])
    {
      assert SoundObject(dir, names[i]) && SoundObject(dir, names[j]);
      if names[i] == names[j] {
        OnceEach(names, files, i, j);
      }
    }
  }

  lemma OnceEach(names: seq<Str>, files: set<Str>, i: nat, j: nat)
    requires multiset(names) == multiset(files) && i < j < |names|
    ensures names[i] != names[j]
  {
    var n := names[i];
    assert names == names[..j] + names[j..];
    assert multiset(names)[n] == multiset(names[..j])[n] + multiset(names[j..])[n];
    assert names[..j][i] == n;
    assert multiset(names[..j])[n] >= 1;
    assert multiset(files)[n] <= 1;
    assert names[j..][0] == names[j];
  }

  lemma SameKeys(dir: BucketDir, names: seq<Str>)
    requires SoundBucket(dir) && multiset(names) == multiset(dir.objects.value.Keys)
    ensures Listing.ListedKeys(names) == Ordered(ViewBucket(dir).Keys)
  {
    hide EncodeKey, DecodeKey;
    NamesOnce(dir, names);
    Listing.ListedKeysSorted(names);
    KeysByName(dir);
    var m := ViewBucket(dir);
    forall k ensures k in Listing.ListedKeys(names) <==> k in m {
      if k in Listing.ListedKeys(names) {
        var n :| n in names && DecodeKey(n) == Success(k);
        assert SoundObject(dir, n);
      }
      if k in m {
        assert NamesFile(dir, k);
      }
    }
    SortedByElements(Listing.ListedKeys(names), Ordered(m.Keys));
  }

  lemma MetaInMap(dir: BucketDir, k: Str)
    requires SoundBucket(dir) && k in ViewBucket(dir)
    ensures Listing.MetaOf(dir.meta.value, k) == Success(ViewBucket(dir)[k].meta)
  {
    hide EncodeKey, DecodeKey;
    assert NamesFile(dir, k);
    assert SoundObject(dir, EncodeKey(k).value);
  }

  lemma ListRefines(d: Disk, b: Str, names: seq<Str>, req: Listing.Request)
    requires Sound(d) && multiset(names) == multiset(ObjectFiles(d, b).Keys)
    ensures Simulates(d, List(b, names, req))
  {
    hide EncodeKey, DecodeKey, SoundBucket, Listing.Answer;
    BucketNames(d);
    if b in d.buckets {
      var dir := d.buckets[b];
      SoundDirs(dir);
      if req.token == Some(Listing.Malformed) {
        Listing.MalformedToken(names, dir.meta.value, req);
      } else {
        ListBucketRefines(dir, names, req);
        assert View(d).buckets[b] == ViewBucket(dir);
      }
    }
  }

  lemma ListBucketRefines(dir: BucketDir, names: seq<Str>, req: Listing.Request)
    requires SoundBucket(dir) && multiset(names) == multiset(dir.objects.value.Keys)
    requires req.token != Some(Listing.Malformed)
    ensures Listing.Answer(names, dir.meta.value, req) == Success(ListBucket(ViewBucket(dir), req))
  {
    hide EncodeKey, DecodeKey, SoundBucket, Listing.Answer, PageOf;
    SoundDirs(dir);
    NamesOnce(dir, names);
    SameKeys(dir, names);
    Listing.AnswerMeaning(names, dir.meta.value, req);
    var m := ViewBucket(dir);
    var page := PageOf(req.ListScope(), Ordered(m.Keys), req.StartAfter(), req.maxKeys);
    PageObjectsAreKeys(req.ListScope(), Ordered(m.Keys), req.StartAfter(), req.maxKeys);
    Listing.ObjectKeysElements(page.items);
    forall k | k in m ensures Listing.MetaOf(dir.meta.value, k) == Success(m[k].meta) {
      MetaInMap(dir, k);
    }
    assert Listing.Answer(names, dir.meta.value, req).value.objects == ListBucket(m, req).objects;
  }

  // ---- Runs ----

  /** What the surroundings guarantee of a request: keys are text, `read_dir` yields every
      entry once, and a completed upload's bucket still exists. */
  ghost predicate Admissible(d: Disk, op: Op)
    requires Sound(d)
  {
    match op
    case Put(_, key, _, _, _) => ValidUtf8(key)
    case Get(_, key, _) => ValidUtf8(key)
    case Head(_, key) => ValidUtf8(key)
    case Delete(_, key) => ValidUtf8(key)
    case List(b, names, _) => multiset(names) == multiset(ObjectFiles(d, b).Keys)
    case Complete(key, id, _, _) => ValidUtf8(key) && (id in d.uploads ==> d.uploads[id].info.value.bucket in d.buckets)
    case _ => true
  }

  lemma StepRefines(d: Disk, op: Op)
    requires Sound(d) && Admissible(d, op)
    ensures Simulates(d, op)
  {
    hide Simulates, Sound, EncodeKey, DecodeKey;
    match op
    case CreateBucket(b) => CreateBucketRefines(d, b);
    case DeleteBucket(b) => DeleteBucketRefines(d, b);
    case Put(b, key, chunks, contentType, now) => PutRefines(d, b, key, chunks, contentType, now);
    case Get(b, key, range) => ReadsRefine(d, b, key, range);
    case Head(b, key) => ReadsRefine(d, b, key, None);
    case Delete(b, key) => DeleteRefines(d, b, key);
    case List(b, names, req) => ListRefines(d, b, names, req);
    case CreateUpload(b, key, contentType, id) => CreateUploadRefines(d, b, key, contentType, id);
    case UploadPart(id, number, chunks) => UploadPartRefines(d, id, number, chunks);
    case Complete(key, id, numbers, now) => CompleteRefines(d, key, id, numbers, now);
    case Abort(id) => AbortRefines(d, id);
  }

  function RunAll(d: Disk, ops: seq<Op>): (Disk, seq<Reply>)
    decreases |ops|
  {
    if ops == [] then (d, [])
    else
      var (d', reply) := Run(d, ops[0]);
      var (end, replies) := RunAll(d', ops[1..]);
      (end, [reply] + replies)
  }

  ghost function IdealAll(s: Store, ops: seq<Op>): (Store, seq<Reply>)
    decreases |ops|
  {
    if ops == [] then (s, [])
    else
      var (s', reply) := Ideal(s, ops[0]);
      var (end, replies) := IdealAll(s', ops[1..]);
      (end, [reply] + replies)
  }

  ghost predicate AdmissibleRun(d: Disk, ops: seq<Op>)
    decreases |ops|
  {
    ops == [] || (Sound(d) && Admissible(d, ops[0]) && AdmissibleRun(Run(d, ops[0]).0, ops[1..]))
  }

  /** Every sequence of operations gets the replies of the map, and ends with the map's content. */
  lemma {:induction false} RunRefines(d: Disk, ops: seq<Op>)
    requires Sound(d) && AdmissibleRun(d, ops)
    ensures var (end, replies) := RunAll(d, ops);
      Sound(end) && (View(end), replies) == IdealAll(View(d), ops)
    decreases |ops|
  {
    hide Run, Ideal, Sound, View;
    if ops != [] {
      StepRefines(d, ops[0]);
      RunRefines(Run(d, ops[0]).0, ops[1..]);
    }
  }

  // ---- Consequences ----

  function EntryAt(s: Store, b: Str, key: Str): Option<Entry> {
    if b in s.buckets && key in s.buckets[b] then Some(s.buckets[b][key]) else None
  }

  /** Without a delimiter every key is an item of its own. */
  lemma {:induction false} NoDelimiterRuns(sc: Scope, keys: seq<Str>)
    requires sc.AllMatch(keys) && sc.delimiter.None?
    ensures |Runs(sc, keys)| == |keys|
    ensures forall i :: 0 <= i < |keys| ==> Runs(sc, keys)[i] == Emitted(Object(keys[i]), keys[i])
  {
    if keys != [] {
      NoDelimiterRuns(sc, keys[1..]);
    }
  }

  lemma {:induction false} ObjectsOnly(items: seq<Item>, keys: seq<Str>)
    requires |items| == |keys| && forall i :: 0 <= i < |keys| ==> items[i] == Object(keys[i])
    ensures Listing.ObjectKeys(items) == keys && Listing.PrefixNames(items) == []
  {
    if keys != [] {
      ObjectsOnly(items[1..], keys[1..]);
    }
  }

  /** A listing without prefix, delimiter or token: the first keys of the map in byte order with
      their metadata, as many as a page takes. It is truncated exactly when the map has more keys
      than that, and then the token is the last key of the page. A page takes 1000 keys unless
      fewer are asked for. */
  lemma PlainListing(m: Bucket, maxKeys: Option<nat>)
    ensures |Ordered(m.Keys)| == |m.Keys|
    ensures var (r, n) := (ListBucket(m, Listing.Request(None, None, None, maxKeys)), PageSize(maxKeys));
      && |r.objects| == (if |m.Keys| <= n then |m.Keys| else n)
      && (forall i :: 0 <= i < |r.objects| ==> r.objects[i] == m[Ordered(m.Keys)[i]].meta)
      && r.commonPrefixes == []
      && (r.isTruncated <==> |m.Keys| > n)
      && r.next == (if |m.Keys| > n then Some(Ordered(m.Keys)[n - 1]) else None)
    ensures maxKeys.None? ==> PageSize(maxKeys) == 1000
  {
    var req := Listing.Request(None, None, None, maxKeys);
    var sc, keys, n := req.ListScope(), Ordered(m.Keys), PageSize(maxKeys);
    SelectAll(sc, keys);
    NoDelimiterRuns(sc, keys);
    SortedSize(keys, m.Keys);
    var page := PageOf(sc, keys, req.StartAfter(), maxKeys);
    ObjectsOnly(page.items, if |keys| <= n then keys else keys[..n]);
  }

  lemma SelectAll(sc: Scope, keys: seq<Str>)
    requires sc.prefix == [] && StrictlySorted(keys)
    ensures Select(sc, keys, None) == keys
  {
    SelectSorted(sc, keys, None);
    SortedByElements(Select(sc, keys, None), keys);
  }

  lemma {:induction false} SortedSize(keys: seq<Str>, elements: set<Str>)
    requires StrictlySorted(keys) && forall k :: k in keys <==> k in elements
    ensures |keys| == |elements|
  {
    if keys == [] {
      assert elements == {};
    } else {
      TailElements(keys);
      assert keys[0] in elements;
      SortedSize(keys[1..], elements - {keys[0]});
    }
  }

  lemma NoMetaUnsound(dir: BucketDir)
    requires dir.meta.None?
    ensures !SoundBucket(dir)
  {
  }

  /** Completing an upload keeps the disk well-formed exactly when the upload's bucket still
      exists: otherwise objects/ is made again, without meta/. */
  lemma CompleteKeepsSound(d: Disk, key: Str, id: Str, numbers: seq<int>, now: int)
    requires Sound(d) && ValidUtf8(key)
    ensures Sound(Run(d, Complete(key, id, numbers, now)).0) <==>
      (id in d.uploads ==> d.uploads[id].info.value.bucket in d.buckets)
  {
    hide EncodeKey, DecodeKey, Assembled, SoundObject, SoundBucket;
    var op := Complete(key, id, numbers, now);
    if id in d.uploads && d.uploads[id].info.value.bucket !in d.buckets {
      var b, d' := d.uploads[id].info.value.bucket, Run(d, op).0;
      assert b in d'.buckets && d'.buckets[b].meta.None?;
      assert !SoundBucket(d'.buckets[b]) by {
        NoMetaUnsound(d'.buckets[b]);
      }
    } else {
      CompleteRefines(d, key, id, numbers, now);
    }
  }

  /** And in that case the call fails after the body has been put in place: the key has a body
      and no sidecar, so it can be neither read nor listed. */
  lemma CompleteWithoutBucket(d: Disk, key: Str, id: Str, numbers: seq<int>, now: int)
    requires Sound(d) && id in d.uploads && d.uploads[id].info.value.bucket !in d.buckets
    requires EncodeKey(key).Success? && key != [] && Assembled(d.uploads[id].parts, numbers).Some?
    ensures var b, (d', reply) := d.uploads[id].info.value.bucket, Run(d, Complete(key, id, numbers, now));
      && reply == Refused(Io)
      && EncodeKey(key).value in ObjectFiles(d', b)
      && HeadObject(d', b, key) == Failure(NoSuchKey)
      && d'.uploads == d.uploads
  {
    hide EncodeKey, DecodeKey, Assembled;
    EncodedNames(key, key);
  }
}
