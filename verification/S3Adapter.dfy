/** The S3 handlers that add logic of their own: crates/server/src/s3_impl.rs. */
module S3Adapter {
  import opened Wrappers
  import opened Bytes
  import opened KeyEncoding
  import opened Meta
  import opened Ranges
  import opened DiskOps
  import opened FsStorage
  import ObjectMap

  // ---- GetObject ----

  /** `bytes {first}-{last}/{size}` */
  datatype ContentRange = ContentRange(first: nat, last: int, size: nat)

  datatype GetOutput = GetOutput(
    status: nat, body: Str, contentLength: int, contentRange: Option<ContentRange>,
    etag: ETag, contentType: Str, lastModified: int)

  const I64_SPAN := 0x1_0000_0000_0000_0000
  const I64_MAX := 0x7FFF_FFFF_FFFF_FFFF

  /** `as i64` of a u64. */
  function AsI64(n: nat): int {
    var low := n % I64_SPAN;
    if low > I64_MAX then low - I64_SPAN else low
  }

  /** The storage picks the bytes, the handler works out the headers from the same range and
      the recorded size. */
  method GetObject(storage: FsStorage, b: Str, key: Str, range: Option<HttpRange>) returns (r: Result<GetOutput>)
    ensures var internal := if range.Some? then Some(ToByteRange(range.value)) else None;
      var got := DiskOps.GetObject(storage.disk, b, key, internal);
      r == if got.Failure? then Failure(got.error) else Success(Respond(got.value.0, got.value.1, range))
  {
    var internal: Option<ByteRange> := None;
    if range.Some? {
      internal := Some(ToByteRange(range.value));
    }
    var got := storage.GetObject(b, key, internal);
    if got.Failure? {
      return Failure(got.error);
    }
    var (meta, body) := got.value;
    var fullSize := meta.size;
    var output := GetOutput(200, body, AsI64(fullSize), None, meta.etag, meta.contentType, meta.lastModified);
    if range.Some? {
      var window := Resolve(ToByteRange(range.value), fullSize);
      if window.Some? {
        var resolved := window.value;
        if resolved.length > 0 {
          var end := resolved.start + (resolved.length - 1);
          output := output.(contentRange := Some(ContentRange(resolved.start, end, fullSize)));
          output := output.(contentLength := AsI64(resolved.length));
          return Success(output.(status := 206));
        }
      }
    }
    r := Success(output);
  }

  /** The response for a body and the object's metadata. */
  function Respond(meta: ObjectMeta, body: Str, range: Option<HttpRange>): GetOutput {
    var window := if range.Some? then Resolve(ToByteRange(range.value), meta.size) else None;
    if window.Some? && window.value.length > 0 then
      var w := window.value;
      GetOutput(206, body, AsI64(w.length), Some(ContentRange(w.start, w.start + w.length - 1, meta.size)),
                meta.etag, meta.contentType, meta.lastModified)
    else
      GetOutput(200, body, AsI64(meta.size), None, meta.etag, meta.contentType, meta.lastModified)
  }

  /** Bytes, Content-Length and Content-Range tell of one window of the object (section 14.4 of
      RFC 9110): all of it without a Content-Range, the named positions with one. */
  predicate Consistent(out: GetOutput, content: Str) {
    && out.contentLength == |out.body|
    && (out.status == 206 <==> out.contentRange.Some?)
    && (match out.contentRange
        case None => out.body == content
        case Some(cr) => cr.first <= cr.last < cr.size == |content| && out.body == content[cr.first..cr.last + 1])
  }

  /** The body that the storage sends for an object and a range it can satisfy. */
  function BodyFor(content: Str, range: Option<HttpRange>): Str
    requires range.Some? ==> Resolve(ToByteRange(range.value), |content|).Some?
  {
    if range.None? then content
    else
      var w := Resolve(ToByteRange(range.value), |content|).value;
      Window(content, w.start, w.length)
  }

  lemma ResponseConsistent(meta: ObjectMeta, content: Str, range: Option<HttpRange>)
    requires meta.size == |content| <= I64_MAX
    ensures range.Some? && Resolve(ToByteRange(range.value), |content|).Some? ==>
      (Consistent(Respond(meta, BodyFor(content, range), range), content) <==>
        !(range == Some(SuffixRange(0)) && content != []))
    ensures range.None? ==> Consistent(Respond(meta, content, range), content)
  {
    hide Resolve;
    if range.Some? {
      var w := Resolve(ToByteRange(range.value), |content|);
      if w.Some? {
        ResolveMeaning(range.value, |content|);
        ObjectMap.WindowInside(content, w.value.start, w.value.length);
        EmptyWindow(range.value, |content|);
      }
    }
  }

  /** Every answered GET on a well-formed disk is consistent, except, and only, a suffix of
      length 0 of a non-empty object: it sends no bytes under the headers of all of them. */
  lemma RangeConsistent(d: Disk, b: Str, key: Str, range: Option<HttpRange>)
    requires ObjectMap.Sound(d) && ValidUtf8(key)
    requires var e := ObjectMap.Find(ObjectMap.View(d), b, key); e.Success? && |e.value.bytes| <= I64_MAX
    ensures var content := ObjectMap.Find(ObjectMap.View(d), b, key).value.bytes;
      var got := DiskOps.GetObject(d, b, key, if range.Some? then Some(ToByteRange(range.value)) else None);
      && (got.Failure? <==> range.Some? && Resolve(ToByteRange(range.value), |content|).None?)
      && (got.Failure? ==> got.error == RangeNotSatisfiable)
      && (got.Success? ==>
           (Consistent(Respond(got.value.0, got.value.1, range), content) <==>
             !(range == Some(SuffixRange(0)) && content != [])))
  {
    hide EncodeKey, DecodeKey, ObjectMap.Sound, ObjectMap.View, Respond, Consistent, Resolve;
    ObjectMap.FindRefines(d, b, key);
    var e := ObjectMap.Find(ObjectMap.View(d), b, key).value;
    ResponseConsistent(e.meta, e.bytes, range);
  }

  /** A Content-Range names exactly the requested positions that the object has, and is there
      exactly when there are any. */
  lemma RangeHeader(meta: ObjectMeta, body: Str, range: HttpRange)
    ensures var cr := Respond(meta, body, Some(range)).contentRange;
      && (cr.Some? <==> exists i :: 0 <= i < meta.size && Requested(range, meta.size, i))
      && (cr.Some? ==> forall i ::
           cr.value.first <= i <= cr.value.last <==> 0 <= i < meta.size && Requested(range, meta.size, i))
  {
    hide Resolve, Requested;
    ResolveMeaning(range, meta.size);
    var w := Resolve(ToByteRange(range), meta.size);
    if w.Some? && w.value.length > 0 {
      assert Inside(w.value, w.value.start);
    }
    if i :| 0 <= i < meta.size && Requested(range, meta.size, i) {
      assert w.Some? && Inside(w.value, i);
    }
    if w.Some? && w.value.length > 0 {
      forall i ensures w.value.start <= i <= w.value.start + w.value.length - 1 <==>
          0 <= i < meta.size && Requested(range, meta.size, i) {
        assert Inside(w.value, i) <==> 0 <= i < meta.size && Requested(range, meta.size, i);
      }
    }
  }

  /** Every answered GET carries the validators, the type and the date of the map's entry; the status
      is 206 when a Content-Range is sent and 200 otherwise; without a range it is 200 with the whole
      object under its size. */
  lemma GetHeaders(d: Disk, b: Str, key: Str, range: Option<HttpRange>)
    requires ObjectMap.Sound(d) && ValidUtf8(key)
    requires ObjectMap.Find(ObjectMap.View(d), b, key).Success?
    ensures var e := ObjectMap.Find(ObjectMap.View(d), b, key).value;
      var got := DiskOps.GetObject(d, b, key, if range.Some? then Some(ToByteRange(range.value)) else None);
      got.Success? ==>
        var out := Respond(got.value.0, got.value.1, range);
        && out.etag == e.meta.etag && out.contentType == e.meta.contentType && out.lastModified == e.meta.lastModified
        && out.status == (if out.contentRange.Some? then 206 else 200)
        && out.body == got.value.1
        && (range.None? ==>
             out.contentRange.None? && out.body == e.bytes && (|e.bytes| <= I64_MAX ==> out.contentLength == |e.bytes|))
  {
    hide EncodeKey, DecodeKey, ObjectMap.Sound, ObjectMap.View, Resolve;
    ObjectMap.FindRefines(d, b, key);
  }

  /** A size that i64 holds stays as it is; any other u64 becomes the negative number that is the same
      modulo 2^64. */
  lemma CastKeeps(n: nat)
    requires n < 0x1_0000_0000_0000_0000
    ensures AsI64(n) == if n < 0x8000_0000_0000_0000 then n else n - 0x1_0000_0000_0000_0000
  {
  }

  lemma EmptyWindow(range: HttpRange, size: nat)
    requires Resolve(ToByteRange(range), size).Some?
    ensures Resolve(ToByteRange(range), size).value.length == 0 <==>
      range == SuffixRange(0) || (size == 0 && range.SuffixRange?)
  {
  }

  // ---- DeleteObjects ----

  datatype DeleteOutput = DeleteOutput(deleted: seq<Str>, errors: seq<(Str, Error)>)

  /** The disk after deleting the keys one by one. */
  function AfterDeletes(d: Disk, b: Str, keys: seq<Str>): Disk {
    if keys == [] then d
    else DiskOps.DeleteObject(AfterDeletes(d, b, keys[..|keys| - 1]), b, keys[|keys| - 1]).0
  }

  /** Deleting this key reports an error of its own: absence is no error. */
  function DeleteError(d: Disk, b: Str, key: Str): Option<Error> {
    var r := DiskOps.DeleteObject(d, b, key).1;
    if r.Success? || r.error == NoSuchKey then None else Some(r.error)
  }

  function Deleted(d: Disk, b: Str, keys: seq<Str>): seq<Str> {
    if keys == [] then []
    else
      var n := |keys| - 1;
      Deleted(d, b, keys[..n]) +
        if DeleteError(AfterDeletes(d, b, keys[..n]), b, keys[n]).None? then [keys[n]] else []
  }

  function Errors(d: Disk, b: Str, keys: seq<Str>): seq<(Str, Error)> {
    if keys == [] then []
    else
      var n := |keys| - 1;
      var e := DeleteError(AfterDeletes(d, b, keys[..n]), b, keys[n]);
      Errors(d, b, keys[..n]) + if e.Some? then [(keys[n], e.value)] else []
  }

  /** `delete_objects` */
  method DeleteObjects(storage: FsStorage, b: Str, keys: seq<Str>, quiet: bool) returns (out: DeleteOutput)
    modifies storage
    ensures storage.disk == AfterDeletes(old(storage.disk), b, keys)
    ensures out == DeleteOutput(
      if quiet then [] else Deleted(old(storage.disk), b, keys), Errors(old(storage.disk), b, keys))
  {
    ghost var d := storage.disk;
    var deleted: seq<Str>, errors: seq<(Str, Error)> := [], [];
    for i := 0 to |keys|
      invariant storage.disk == AfterDeletes(d, b, keys[..i])
      invariant deleted == if quiet then [] else Deleted(d, b, keys[..i])
      invariant errors == Errors(d, b, keys[..i])
    {
      assert keys[..i + 1][..i] == keys[..i];
      var r := storage.DeleteObject(b, keys[i]);
      match r
      case Success(_) =>
        if !quiet {
          deleted := deleted + [keys[i]];
        }
      case Failure(e) =>
        if e == NoSuchKey {
          if !quiet {
            deleted := deleted + [keys[i]];
          }
        } else {
          errors := errors + [(keys[i], e)];
        }
    }
    assert keys[..|keys|] == keys;
    out := DeleteOutput(deleted, errors);
  }

  /** The error a key gives by itself, in any state of a bucket that exists or does not. */
  function KeyError(present: bool, key: Str): Option<Error> {
    if EncodeKey(key).Failure? then Some(EncodeKey(key).error)
    else if key == [] && present then Some(Io)
    else None
  }

  function Deletable(present: bool, keys: seq<Str>): seq<Str> {
    if keys == [] then []
    else
      var n := |keys| - 1;
      Deletable(present, keys[..n]) + if KeyError(present, keys[n]).None? then [keys[n]] else []
  }

  function Refusals(present: bool, keys: seq<Str>): seq<(Str, Error)> {
    if keys == [] then []
    else
      var n := |keys| - 1;
      var e := KeyError(present, keys[n]);
      Refusals(present, keys[..n]) + if e.Some? then [(keys[n], e.value)] else []
  }

  ghost predicate AllText(keys: seq<Str>) {
    forall k :: k in keys ==> ValidUtf8(k)
  }

  /** Batch delete removes every listed key and nothing else. */
  lemma {:induction false} BatchDeletes(d: Disk, b: Str, keys: seq<Str>)
    requires ObjectMap.Sound(d) && AllText(keys)
    ensures var d' := AfterDeletes(d, b, keys);
      && ObjectMap.Sound(d')
      && ObjectMap.View(d').uploads == ObjectMap.View(d).uploads
      && ObjectMap.View(d').buckets ==
           (if b in ObjectMap.View(d).buckets
            then ObjectMap.View(d).buckets[b := ObjectMap.View(d).buckets[b] - (set k | k in keys)]
            else ObjectMap.View(d).buckets)
  {
    hide EncodeKey, DecodeKey, ObjectMap.Sound, ObjectMap.View, DiskOps.DeleteObject;
    var s := ObjectMap.View(d);
    if keys == [] {
      assert b in s.buckets ==> s.buckets[b] - (set k | k in keys) == s.buckets[b];
    } else {
      var n := |keys| - 1;
      BatchDeletes(d, b, keys[..n]);
      assert keys == keys[..n] + [keys[n]];
      assert keys[n] in keys;
      var d1 := AfterDeletes(d, b, keys[..n]);
      ObjectMap.DeleteRefines(d1, b, keys[n]);
      RefusedAbsent(d1, b, keys[n]);
      if b in s.buckets {
        assert (set k | k in keys) == (set k | k in keys[..n]) + {keys[n]};
        var s1 := ObjectMap.View(d1);
        var left := s.buckets[b] - (set k | k in keys);
        assert s1.buckets[b] - {keys[n]} == left;
        assert s1.buckets[b := left] == s.buckets[b := left];
        if keys[n] !in s1.buckets[b] {
          assert s1.buckets[b] == left;
        }
      }
    }
  }

  /** A key that cannot name an object has no entry. */
  lemma RefusedAbsent(d: Disk, b: Str, key: Str)
    requires ObjectMap.Sound(d)
    ensures EncodeKey(key).Failure? || key == [] ==> ObjectMap.EntryAt(ObjectMap.View(d), b, key).None?
  {
    hide EncodeKey, DecodeKey;
    EmptyKeyEncodes();
    if b in d.buckets {
      var dir := d.buckets[b];
      assert ObjectMap.SoundBucket(dir);
      assert [] in dir.objects.value ==> ObjectMap.SoundObject(dir, []);
    }
  }

  lemma DeleteErrorIsKeyError(d: Disk, b: Str, key: Str)
    requires ObjectMap.Sound(d)
    ensures DeleteError(d, b, key) == KeyError(b in d.buckets, key)
  {
    hide PercentEncode, IsTraversalUnsafe, DecodeKey;
    EmptyKeyEncodes();
    ObjectMap.EmptyNameIffEmptyKey(key);
    if b in d.buckets {
      assert ObjectMap.SoundBucket(d.buckets[b]);
    }
  }

  /** What is reported depends on the list alone, not on what the bucket holds: a key is reported
      deleted, present or absent, unless it cannot name an object. */
  lemma {:induction false} BatchReports(d: Disk, b: Str, keys: seq<Str>)
    requires ObjectMap.Sound(d) && AllText(keys)
    ensures Deleted(d, b, keys) == Deletable(b in d.buckets, keys)
    ensures Errors(d, b, keys) == Refusals(b in d.buckets, keys)
  {
    hide ObjectMap.Sound, ObjectMap.View, DiskOps.DeleteObject, DeleteError, KeyError;
    if keys != [] {
      var n := |keys| - 1;
      assert keys == keys[..n] + [keys[n]];
      BatchReports(d, b, keys[..n]);
      BatchDeletes(d, b, keys[..n]);
      var d1 := AfterDeletes(d, b, keys[..n]);
      ObjectMap.BucketNames(d);
      ObjectMap.BucketNames(d1);
      assert b in d1.buckets <==> b in d.buckets;
      DeleteErrorIsKeyError(d1, b, keys[n]);
    }
  }

  /** Neither the order of the list nor repetition in it matters to the final state. */
  lemma BatchOrderFree(d: Disk, b: Str, keys: seq<Str>, others: seq<Str>)
    requires ObjectMap.Sound(d) && AllText(keys) && AllText(others)
    requires forall k :: k in keys <==> k in others
    ensures ObjectMap.Sound(AfterDeletes(d, b, keys)) && ObjectMap.Sound(AfterDeletes(d, b, others))
    ensures ObjectMap.View(AfterDeletes(d, b, keys)) == ObjectMap.View(AfterDeletes(d, b, others))
  {
    hide ObjectMap.Sound, ObjectMap.View, AfterDeletes;
    BatchDeletes(d, b, keys);
    BatchDeletes(d, b, others);
    assert (set k | k in keys) == (set k | k in others);
  }

  /** Running the batch again changes nothing and reports the same. */
  lemma BatchAgain(d: Disk, b: Str, keys: seq<Str>)
    requires ObjectMap.Sound(d) && AllText(keys)
    ensures var d1 := AfterDeletes(d, b, keys);
      var d2 := AfterDeletes(d1, b, keys);
      && ObjectMap.Sound(d1) && ObjectMap.Sound(d2) && ObjectMap.View(d2) == ObjectMap.View(d1)
      && Deleted(d1, b, keys) == Deleted(d, b, keys)
      && Errors(d1, b, keys) == Errors(d, b, keys)
  {
    hide ObjectMap.Sound, ObjectMap.View, AfterDeletes, Deleted, Errors, Deletable, Refusals;
    var d1 := AfterDeletes(d, b, keys);
    BatchDeletes(d, b, keys);
    BatchDeletes(d1, b, keys);
    ObjectMap.BucketNames(d);
    ObjectMap.BucketNames(d1);
    BatchReports(d, b, keys);
    BatchReports(d1, b, keys);
    var s, s1 := ObjectMap.View(d), ObjectMap.View(d1);
    if b in s.buckets {
      assert s1.buckets[b] - (set k | k in keys) == s1.buckets[b];
      assert s1.buckets[b := s1.buckets[b]] == s1.buckets;
    }
  }

  /** The two reports between them list every key of the list once per mention, and each refusal with
      the reason why the key cannot name an object. */
  lemma {:induction false} ReportsAreComplete(present: bool, keys: seq<Str>)
    ensures |Deletable(present, keys)| + |Refusals(present, keys)| == |keys|
    ensures forall k :: k in Deletable(present, keys) <==> k in keys && !Unnameable(present, k)
    ensures forall k, e :: (k, e) in Refusals(present, keys) <==> k in keys && Unnameable(present, k) && Reason(k) == e
  {
    hide KeyError, Unnameable, Reason;
    if keys != [] {
      var n := |keys| - 1;
      assert keys == keys[..n] + [keys[n]];
      ReportsAreComplete(present, keys[..n]);
      KeyErrorIs(present, keys[n]);
    }
  }

  /** A key that can name no object: too long, with a NUL byte or segment `..`, or empty. */
  ghost predicate Unnameable(present: bool, key: Str) {
    EncodedSize(key) > 255 || HasBadPart(key) || (key == [] && present)
  }

  ghost function Reason(key: Str): Error {
    if EncodedSize(key) > 255 then KeyTooLong else if HasBadPart(key) then InvalidKey else Io
  }

  lemma KeyErrorIs(present: bool, key: Str)
    ensures KeyError(present, key) == if Unnameable(present, key) then Some(Reason(key)) else None
  {
    hide EncodeKey, EncodedSize, HasBadPart;
    EncodeRefuses(key);
  }
}
