/** What the operations of the store promise a client, on every well-formed disk, in terms of what it
    sent and of what other operations answer: crates/storage/src/fs.rs and multipart.rs. */
module Laws {
  import opened Wrappers
  import opened Bytes
  import opened KeyEncoding
  import opened Meta
  import opened Ranges
  import opened DiskOps
  import opened Assembly
  import opened Spelling
  import Listing
  import ObjectMap

  /** The type recorded for an object: the one the client named, or the default. */
  predicate IsTypeFor(recorded: Str, named: Option<Str>) {
    match named
    case Some(t) => recorded == t
    case None => recorded == Ascii("application/octet-stream")
  }

  lemma TypeIsFor(named: Option<Str>)
    ensures IsTypeFor(TypeOr(named), named)
  {
    DefaultType();
  }

  /** A key that names an object: text, not empty, not too long, no NUL byte and no segment `..`. */
  ghost predicate GoodKey(key: Str) {
    ValidUtf8(key) && key != [] && EncodedSize(key) <= 255 && !HasBadPart(key)
  }

  /** Why a key is refused, if it is. */
  ghost function Refusal(key: Str): Option<Error> {
    if EncodedSize(key) > 255 then Some(KeyTooLong)
    else if HasBadPart(key) then Some(InvalidKey)
    else None
  }

  lemma KeyAccepted(key: Str)
    ensures EncodeKey(key).Success? <==> Refusal(key).None?
    ensures Refusal(key).Some? ==> EncodeKey(key) == Failure(Refusal(key).value)
    ensures GoodKey(key) ==> EncodeKey(key).Success?
  {
    hide EncodeKey, EncodedSize, HasBadPart, PercentEncode, ValidUtf8;
    EncodeRefuses(key);
  }

  // ---- What arrives ----

  /** A stream delivers the concatenation of its items, unless one of them is a failure. */
  lemma {:induction false} ReceivedJoins(a: seq<Chunk>, b: seq<Chunk>)
    ensures Received(a + b) ==
      if Received(a).Some? && Received(b).Some? then Some(Received(a).value + Received(b).value) else None
  {
    if b == [] {
      assert a + b == a && Received(b) == Some([]);
      assert Received(a).Some? ==> Received(a).value + [] == Received(a).value;
    } else {
      var n := |b| - 1;
      var init, last := b[..n], b[n];
      ReceivedJoins(a, init);
      assert (a + b)[..|a + b| - 1] == a + init && (a + b)[|a + b| - 1] == last;
      if Received(a).Some? && Received(init).Some? && last.Data? {
        assert Received(a).value + Received(init).value + last.bytes
          == Received(a).value + (Received(init).value + last.bytes);
      }
    }
  }

  lemma ReceivedItem(bytes: Str)
    ensures Received([]) == Some([])
    ensures Received([Data(bytes)]) == Some(bytes)
    ensures Received([Broken]) == None
  {
    assert [Data(bytes)][..0] == [] && [] + bytes == bytes;
  }

  // ---- Objects ----

  /** What a stored object's metadata says: its key, the bytes and when they were put, and the type
      the client named. */
  predicate Says(m: ObjectMeta, key: Str, body: Str, named: Option<Str>, now: int) {
    m.key == key && m.size == |body| && m.etag == Md5(body) && m.lastModified == now
    && IsTypeFor(m.contentType, named)
  }

  /** These are the bytes at the requested positions of an object, from `first` on. */
  ghost predicate IsCut(part: Str, body: Str, range: HttpRange, first: nat) {
    && first + |part| <= |body| && part == body[first..first + |part|]
    && forall i :: first <= i < first + |part| <==> 0 <= i < |body| && Requested(range, |body|, i)
  }

  /** A put of a good key into an existing bucket, if its body arrives, is stored under metadata that
      tells of it, and head and get give it back. */
  lemma PutStores(d: Disk, b: Str, key: Str, chunks: seq<Chunk>, named: Option<Str>, now: int)
    requires ObjectMap.Sound(d) && GoodKey(key) && b in d.buckets && Received(chunks).Some?
    ensures var (d', r) := PutObject(d, b, key, chunks, named, now);
      && r.Success? && ObjectMap.Sound(d')
      && Says(r.value, key, Received(chunks).value, named, now)
      && HeadObject(d', b, key) == Success(r.value)
      && GetObject(d', b, key, None) == Success((r.value, Received(chunks).value))
  {
    hide EncodeKey, DecodeKey, ObjectMap.Sound, ObjectMap.View, Received, TypeOr, GoodKey, ValidUtf8;
    TextAndName(key);
    KeyAccepted(key);
    TypeIsFor(named);
    ObjectMap.PutRefines(d, b, key, chunks, named, now);
    ObjectMap.BucketNames(d);
    var d' := PutObject(d, b, key, chunks, named, now).0;
    ObjectMap.ReadsRefine(d', b, key, None);
  }

  lemma TextAndName(key: Str)
    requires GoodKey(key)
    ensures ValidUtf8(key) && key != []
  {
  }

  /** Why a put is refused, if it is. */
  lemma PutRefused(d: Disk, b: Str, key: Str, chunks: seq<Chunk>, named: Option<Str>, now: int)
    requires ObjectMap.Sound(d) && ValidUtf8(key)
    ensures var (d', r) := PutObject(d, b, key, chunks, named, now);
      && (r.Success? <==> b in d.buckets && GoodKey(key) && Received(chunks).Some?)
      && (r.Failure? ==>
           && d' == d
           && r.error == (if b !in d.buckets then NoSuchBucket
                          else if Refusal(key).Some? then Refusal(key).value
                          else Io))
  {
    hide EncodeKey, DecodeKey, ObjectMap.SoundObject, Received, TypeOr, ValidUtf8, EncodedSize, HasBadPart;
    KeyAccepted(key);
    ObjectMap.EmptyNameIffEmptyKey(key);
    assert b in d.buckets ==> ObjectMap.SoundBucket(d.buckets[b]);
  }

  /** Head and get answer together: both refuse the key, or both find the same metadata; the body is
      of the size and digest that the metadata tell. */
  lemma ReadsAgree(d: Disk, b: Str, key: Str)
    requires ObjectMap.Sound(d) && ValidUtf8(key)
    ensures var (h, g) := (HeadObject(d, b, key), GetObject(d, b, key, None));
      && (h.Failure? ==>
           && g == Failure(h.error)
           && h.error == (if Refusal(key).Some? then Refusal(key).value else NoSuchKey))
      && (h.Success? ==>
           && g.Success? && g.value.0 == h.value
           && |g.value.1| == h.value.size && h.value.etag.of == g.value.1)
  {
    hide EncodeKey, DecodeKey, ObjectMap.Sound, ObjectMap.View, ValidUtf8, EncodedSize, HasBadPart;
    KeyAccepted(key);
    ObjectMap.FindRefines(d, b, key);
    ObjectMap.ReadsRefine(d, b, key, None);
  }

  /** On any disk, well-formed or not: a key without a sidecar is absent, a torn sidecar is an I/O
      error, and so for get, which besides needs the body. */
  lemma ReadsOnAnyDisk(d: Disk, b: Str, key: Str)
    requires Refusal(key).None? && b in d.buckets && d.buckets[b].meta.Some? && d.buckets[b].objects.Some?
    ensures var (file, h) := (PercentEncode(key) + Ascii(".json"), HeadObject(d, b, key));
      && (file !in d.buckets[b].meta.value ==> h == Failure(NoSuchKey))
      && (file in d.buckets[b].meta.value && d.buckets[b].meta.value[file].Torn? ==> h == Failure(Io))
      && (file in d.buckets[b].meta.value && d.buckets[b].meta.value[file].Json? ==>
           h == Success(d.buckets[b].meta.value[file].meta))
    ensures var (h, g) := (HeadObject(d, b, key), GetObject(d, b, key, None));
      && (h.Failure? ==> g == Failure(h.error))
      && (h.Success? && PercentEncode(key) in d.buckets[b].objects.value ==>
           g == Success((h.value, d.buckets[b].objects.value[PercentEncode(key)])))
      && (h.Success? && PercentEncode(key) !in d.buckets[b].objects.value ==> g == Failure(NoSuchKey))
  {
    hide EncodeKey, EncodedSize, HasBadPart, PercentEncode;
    EncodeRefuses(key);
    FileNames(PercentEncode(key));
  }

  /** A ranged get gives the requested positions of what the full one gives. It is refused for its
      range exactly when it asks from a position on and the object has none of what it asks for. */
  lemma RangedGet(d: Disk, b: Str, key: Str, range: HttpRange)
    requires ObjectMap.Sound(d) && ValidUtf8(key) && GetObject(d, b, key, None).Success?
    ensures var ((m, body), r) := (GetObject(d, b, key, None).value, GetObject(d, b, key, Some(ToByteRange(range))));
      && (r.Failure? ==> r.error == RangeNotSatisfiable)
      && (r.Failure? <==> range.IntRange? && forall i :: 0 <= i < |body| ==> !Requested(range, |body|, i))
      && (r.Success? ==> r.value.0 == m && exists first :: IsCut(r.value.1, body, range, first))
  {
    hide EncodeKey, DecodeKey, ObjectMap.Sound, ObjectMap.View, Resolve, Requested, ValidUtf8;
    ReadsAgree(d, b, key);
    ObjectMap.ReadsRefine(d, b, key, None);
    ObjectMap.ReadsRefine(d, b, key, Some(ToByteRange(range)));
    var (m, body) := GetObject(d, b, key, None).value;
    ResolveMeaning(range, |body|);
    var w := Resolve(ToByteRange(range), |body|);
    if w.Some? {
      ObjectMap.WindowInside(body, w.value.start, w.value.length);
      CutIs(body, range, w.value);
    }
  }

  lemma CutIs(body: Str, range: HttpRange, w: ResolvedRange)
    requires w.start + w.length <= |body|
    requires forall i :: Inside(w, i) <==> 0 <= i < |body| && Requested(range, |body|, i)
    ensures IsCut(body[w.start..w.start + w.length], body, range, w.start)
  {
    hide Requested;
    assert forall i :: w.start <= i < w.start + w.length <==> Inside(w, i);
  }

  /** A delete of a key that can be read succeeds, and the key can be read no more; a delete of any
      other key is refused and changes nothing. */
  lemma DeleteRemoves(d: Disk, b: Str, key: Str)
    requires ObjectMap.Sound(d) && ValidUtf8(key)
    ensures var ((d', r), h) := (DeleteObject(d, b, key), HeadObject(d, b, key));
      && ObjectMap.Sound(d')
      && (r.Success? <==> h.Success?)
      && (r.Success? ==>
           && HeadObject(d', b, key) == Failure(NoSuchKey)
           && DeleteObject(d', b, key) == (d', Failure(NoSuchKey)))
      && (r.Failure? ==>
           && d' == d
           && r.error == (if Refusal(key).Some? then Refusal(key).value
                          else if key == [] && b in d.buckets then Io
                          else NoSuchKey))
  {
    hide EncodeKey, DecodeKey, ObjectMap.SoundObject, ObjectMap.View, ValidUtf8, EncodedSize, HasBadPart;
    KeyAccepted(key);
    ObjectMap.EmptyNameIffEmptyKey(key);
    ObjectMap.FindRefines(d, b, key);
    ObjectMap.DeleteRefines(d, b, key);
    assert b in d.buckets ==> ObjectMap.SoundBucket(d.buckets[b]);
    var d' := DeleteObject(d, b, key).0;
    ObjectMap.FindRefines(d', b, key);
  }

  // ---- Buckets ----

  /** Creating a bucket makes an empty one, and is refused for one that exists. */
  lemma BucketCreated(d: Disk, b: Str, names: seq<Str>, req: Listing.Request, key: Str)
    requires ObjectMap.Sound(d) && ValidUtf8(key) && names == [] && req.token != Some(Listing.Malformed)
    ensures var (d', r) := CreateBucket(d, b);
      && ObjectMap.Sound(d')
      && (if b in d.buckets then d' == d && r == Failure(BucketAlreadyExists)
          else
            && r == Success(()) && b in d'.buckets
            && HeadObject(d', b, key).Failure?
            && ListObjects(d', b, names, req) == Success(Listing.Response([], [], None, false))
            && DeleteBucket(d', b) == (d, Success(())))
  {
    hide EncodeKey, DecodeKey, ObjectMap.SoundObject, ValidUtf8;
    ObjectMap.CreateBucketRefines(d, b);
    var d' := CreateBucket(d, b).0;
    if b !in d.buckets {
      assert d'.buckets - {b} == d.buckets;
      NothingListed(map[], req);
    }
  }

  lemma NothingListed(files: map<Str, Sidecar>, req: Listing.Request)
    requires req.token != Some(Listing.Malformed)
    ensures Listing.Answer([], files, req) == Success(Listing.Response([], [], None, false))
  {
  }

  /** A bucket is deleted exactly when no key in it can be read. */
  lemma BucketDeleted(d: Disk, b: Str)
    requires ObjectMap.Sound(d) && b in d.buckets
    ensures var (d', r) := DeleteBucket(d, b);
      && (r.Success? <==> forall key :: ValidUtf8(key) ==> HeadObject(d, b, key).Failure?)
      && (r.Success? ==> b !in d'.buckets && DeleteBucket(d', b) == (d', Failure(NoSuchBucket)))
      && (r.Failure? ==> d' == d && r.error == BucketNotEmpty)
  {
    hide EncodeKey, DecodeKey, ValidUtf8, ReadSidecar;
    var dir := d.buckets[b];
    assert ObjectMap.SoundBucket(dir);
    ObjectMap.EmptyView(dir);
    if dir.objects.value == map[] {
      forall key | ValidUtf8(key) ensures HeadObject(d, b, key).Failure? {
        ObjectMap.FindRefines(d, b, key);
      }
    } else {
      var name :| name in dir.objects.value;
      assert ObjectMap.SoundObject(dir, name);
      var key := DecodeKey(name).value;
      DecodedIsText(name);
      assert HeadObject(d, b, key).Success?;
    }
  }

  lemma DecodedIsText(name: Str)
    requires DecodeKey(name).Success?
    ensures ValidUtf8(DecodeKey(name).value)
  {
    hide ValidUtf8, PercentDecode, IsTraversalUnsafe;
  }

  // ---- Uploads ----

  /** What a completed upload's metadata says: the key and type it was created with, the joined bytes,
      and the digest of the whole with the number of parts. */
  predicate SaysParts(m: ObjectMeta, key: Str, body: Str, parts: nat, named: Option<Str>, now: int) {
    m.key == key && m.size == |body| && m.etag == Md5Parts(body, parts) && m.lastModified == now
    && IsTypeFor(m.contentType, named)
  }

  /** From the creation of an upload through any history to its completion: if every listed part was
      posted, the object is the latest bodies in ascending order under the metadata that the creation
      asked for, and head and get give it back. */
  lemma UploadStores(
      d: Disk, b: Str, key: Str, named: Option<Str>, id: Str, ops: seq<ObjectMap.Op>, numbers: seq<int>, now: int)
    requires ObjectMap.Sound(d) && b in d.buckets && LeavesOpen(ops, id) && GoodKey(key)
    requires var d0 := CreateUpload(d, b, key, named, id).0;
      ObjectMap.AdmissibleRun(d0, ops) && b in ObjectMap.RunAll(d0, ops).0.buckets
    requires forall n :: n in numbers ==> LatestPart(ops, id, n).Some?
    ensures CreateUpload(d, b, key, named, id).1 == Success(id)
    ensures var d1 := ObjectMap.RunAll(CreateUpload(d, b, key, named, id).0, ops).0;
      var (d2, r) := CompleteUpload(d1, key, id, numbers, now);
      var parts := LatestParts(ops, id, numbers);
      && ObjectMap.Sound(d2) && r.Success? && Assembled(parts, numbers).Some?
      && SaysParts(r.value, key, Assembled(parts, numbers).value, |numbers|, named, now)
      && HeadObject(d2, b, key) == Success(r.value)
      && GetObject(d2, b, key, None) == Success((r.value, Assembled(parts, numbers).value))
      && CompleteUpload(d2, key, id, numbers, now) == (d2, Failure(NoSuchUpload))
  {
    hide EncodeKey, DecodeKey, ObjectMap.Sound, ObjectMap.View, ObjectMap.RunAll, Assembled, TypeOr, GoodKey, ValidUtf8;
    hide LatestPart, ObjectMap.AdmissibleRun, LeavesOpen;
    TextAndName(key);
    KeyAccepted(key);
    TypeIsFor(named);
    ObjectMap.CreateUploadRefines(d, b, key, named, id);
    var d0 := CreateUpload(d, b, key, named, id).0;
    ObjectMap.RunRefines(d0, ops);
    var d1 := ObjectMap.RunAll(d0, ops).0;
    CompleteAfterHistory(d0, ops, key, id, numbers, now);
    var (d2, r) := CompleteUpload(d1, key, id, numbers, now);
    ObjectMap.BucketNames(d1);
    ReadsEntry(d2, b, key, ObjectMap.Entry(Assembled(LatestParts(ops, id, numbers), numbers).value, r.value));
    UploadGone(d2, id);
  }

  lemma ReadsEntry(d: Disk, b: Str, key: Str, e: ObjectMap.Entry)
    requires ObjectMap.Sound(d) && ValidUtf8(key) && EncodeKey(key).Success?
    requires ObjectMap.EntryAt(ObjectMap.View(d), b, key) == Some(e)
    ensures HeadObject(d, b, key) == Success(e.meta) && GetObject(d, b, key, None) == Success((e.meta, e.bytes))
  {
    hide EncodeKey, DecodeKey, ObjectMap.Sound, ObjectMap.View, ValidUtf8;
    ObjectMap.ReadsRefine(d, b, key, None);
  }

  lemma UploadGone(d: Disk, id: Str)
    requires ObjectMap.Sound(d)
    ensures ObjectMap.View(d).uploads.Keys == d.uploads.Keys
  {
    hide ObjectMap.SoundBucket;
  }

  /** Creating is refused without the bucket, and once an upload is aborted it can neither take parts
      nor be completed or aborted. */
  lemma UploadEnds(d: Disk, b: Str, key: Str, named: Option<Str>, id: Str, n: int, chunks: seq<Chunk>,
      numbers: seq<int>, now: int)
    requires n >= 1
    ensures b !in d.buckets ==> CreateUpload(d, b, key, named, id) == (d, Failure(NoSuchBucket))
    ensures var (d', r) := AbortUpload(d, id);
      && (r.Success? <==> id in d.uploads) && (r.Failure? ==> d' == d && r.error == NoSuchUpload)
      && d'.buckets == d.buckets
      && UploadPart(d', id, n, chunks) == (d', Failure(NoSuchUpload))
      && CompleteUpload(d', key, id, numbers, now) == (d', Failure(NoSuchUpload))
      && AbortUpload(d', id) == (d', Failure(NoSuchUpload))
  {
    hide EncodeKey, Received, Assembled;
  }

  /** A part needs a positive number, an upload and a stream that does not break; then it is tagged
      with its digest. */
  lemma PartAnswers(d: Disk, id: Str, n: int, chunks: seq<Chunk>)
    ensures var (d', r) := UploadPart(d, id, n, chunks);
      && (r.Success? <==> n >= 1 && id in d.uploads && Received(chunks).Some?)
      && (r.Success? ==> r.value == Md5(Received(chunks).value) && d'.buckets == d.buckets)
      && (r.Failure? ==> d' == d)
      && (n < 1 ==> r == Failure(InvalidPartNumber))
      && (n >= 1 && id !in d.uploads ==> r == Failure(NoSuchUpload))
      && (n >= 1 && id in d.uploads && Received(chunks).None? ==> r == Failure(Io))
  {
    hide Received;
  }
}
