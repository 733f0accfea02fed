/** The data directory and what each storage operation does to it when it runs alone:
    crates/storage/src/fs.rs, meta.rs and multipart.rs. A directory is a map from file names
    to contents, `None` when it does not exist. */
module DiskOps {
  import opened Wrappers
  import opened Bytes
  import opened KeyEncoding
  import opened Meta
  import opened Sorting
  import opened Ranges
  import Listing

  /** `<bucket>/` with objects/, meta/ and .bucket.json. */
  datatype BucketDir = BucketDir(
    objects: Option<map<Str, Str>>, meta: Option<map<Str, Sidecar>>, info: bool)

  datatype UploadInfo = UploadInfo(bucket: Str, key: Str, contentType: Option<Str>)

  /** `.uploads/<id>/`: _meta.json, one file per part number, and temp files of either. */
  datatype Staging = Staging(
    info: Option<UploadInfo>, parts: map<int, Str>,
    temps: map<Str, Str>, infoTemps: map<Str, Option<UploadInfo>>)

  datatype Disk = Disk(buckets: map<Str, BucketDir>, uploads: map<Str, Staging>)

  /** An item of a request body stream; a stream may fail at any point. */
  datatype Chunk = Data(bytes: Str) | Broken

  const OCTET_STREAM: Str :=
    [97, 112, 112, 108, 105, 99, 97, 116, 105, 111, 110, 47,
     111, 99, 116, 101, 116, 45, 115, 116, 114, 101, 97, 109]

  function TypeOr(contentType: Option<Str>): Str {
    if contentType.Some? then contentType.value else OCTET_STREAM
  }

  /** The bytes a stream delivers, if it does not fail. */
  function Received(chunks: seq<Chunk>): Option<Str> {
    if chunks == [] then Some([])
    else
      var earlier, last := Received(chunks[..|chunks| - 1]), chunks[|chunks| - 1];
      if earlier.Some? && last.Data? then Some(earlier.value + last.bytes) else None
  }

  lemma ReceivedSnoc(chunks: seq<Chunk>, i: nat)
    requires i < |chunks|
    ensures Received(chunks[..i + 1]) ==
      if Received(chunks[..i]).Some? && chunks[i].Data? then Some(Received(chunks[..i]).value + chunks[i].bytes)
      else None
  {
    assert chunks[..i + 1][..i] == chunks[..i];
  }

  lemma {:induction false} BrokenStays(chunks: seq<Chunk>, i: nat)
    requires i <= |chunks| && Received(chunks[..i]).None?
    ensures Received(chunks).None?
    decreases |chunks| - i
  {
    if i < |chunks| {
      ReceivedSnoc(chunks, i);
      BrokenStays(chunks, i + 1);
    } else {
      assert chunks[..i] == chunks;
    }
  }

  /** rename(2) within one directory. */
  function Rename<T>(dir: map<Str, T>, from: Str, to: Str): map<Str, T>
    requires from in dir
  {
    (dir - {from})[to := dir[from]]
  }

  function WithObjects(d: Disk, b: Str, objects: map<Str, Str>): Disk
    requires b in d.buckets
  {
    d.(buckets := d.buckets[b := d.buckets[b].(objects := Some(objects))])
  }

  function WithMeta(d: Disk, b: Str, meta: map<Str, Sidecar>): Disk
    requires b in d.buckets
  {
    d.(buckets := d.buckets[b := d.buckets[b].(meta := Some(meta))])
  }

  /** Writing to a directory again replaces what was written. */
  lemma WithObjectsTwice(d: Disk, b: Str, x: map<Str, Str>, y: map<Str, Str>)
    requires b in d.buckets
    ensures WithObjects(WithObjects(d, b, x), b, y) == WithObjects(d, b, y)
  {
    assert WithObjects(WithObjects(d, b, x), b, y).buckets == WithObjects(d, b, y).buckets;
  }

  lemma WithMetaTwice(d: Disk, b: Str, x: map<Str, Sidecar>, y: map<Str, Sidecar>)
    requires b in d.buckets
    ensures WithMeta(WithMeta(d, b, x), b, y) == WithMeta(d, b, y)
  {
    assert WithMeta(WithMeta(d, b, x), b, y).buckets == WithMeta(d, b, y).buckets;
  }

  lemma WithObjectsSame(d: Disk, b: Str)
    requires b in d.buckets && d.buckets[b].objects.Some?
    ensures WithObjects(d, b, d.buckets[b].objects.value) == d
  {
    assert WithObjects(d, b, d.buckets[b].objects.value).buckets == d.buckets;
  }

  function WithStaging(d: Disk, id: Str, staging: Staging): Disk {
    d.(uploads := d.uploads[id := staging])
  }

  lemma WithStagingTwice(d: Disk, id: Str, x: Staging, y: Staging)
    ensures WithStaging(WithStaging(d, id, x), id, y) == WithStaging(d, id, y)
    ensures id in d.uploads ==> WithStaging(d, id, d.uploads[id]) == d
  {
    assert WithStaging(WithStaging(d, id, x), id, y).uploads == WithStaging(d, id, y).uploads;
    if id in d.uploads {
      assert WithStaging(d, id, d.uploads[id]).uploads == d.uploads;
    }
  }

  // ---- Buckets ----

  function CreateBucket(d: Disk, b: Str): (Disk, Result<()>) {
    if b in d.buckets then (d, Failure(BucketAlreadyExists))
    else (d.(buckets := d.buckets[b := BucketDir(Some(map[]), Some(map[]), true)]), Success(()))
  }

  /** The removals come one at a time, and none of them is recursive. */
  function DeleteBucket(d: Disk, b: Str): (Disk, Result<()>) {
    if b !in d.buckets then (d, Failure(NoSuchBucket))
    else
      var dir := d.buckets[b];
      if dir.objects.Some? && dir.objects.value != map[] then (d, Failure(BucketNotEmpty))
      else if dir.meta.Some? && dir.meta.value != map[] then
        (d.(buckets := d.buckets[b := dir.(objects := None)]), Failure(BucketNotEmpty))
      else (d.(buckets := d.buckets - {b}), Success(()))
  }

  // ---- Objects ----

  /** Body, then sidecar. The empty name is the directory itself: renaming onto it fails. */
  function Store(d: Disk, b: Str, encoded: Str, body: Str, m: ObjectMeta): (Disk, Result<ObjectMeta>)
    requires b in d.buckets && d.buckets[b].objects.Some?
  {
    if encoded == [] then (d, Failure(Io))
    else
      var placed := WithObjects(d, b, d.buckets[b].objects.value[encoded := body]);
      if d.buckets[b].meta.None? then (placed, Failure(Io))
      else (WithMeta(placed, b, d.buckets[b].meta.value[SidecarName(encoded) := Json(m)]), Success(m))
  }

  function PutObject(d: Disk, b: Str, key: Str, chunks: seq<Chunk>, contentType: Option<Str>, now: int)
    : (Disk, Result<ObjectMeta>)
  {
    if b !in d.buckets then (d, Failure(NoSuchBucket))
    else if EncodeKey(key).Failure? then (d, Failure(EncodeKey(key).error))
    else if d.buckets[b].objects.None? || Received(chunks).None? then (d, Failure(Io))
    else
      var body := Received(chunks).value;
      Store(d, b, EncodeKey(key).value, body, ObjectMeta(key, |body|, TypeOr(contentType), Md5(body), now))
  }

  function MetaFiles(d: Disk, b: Str): map<Str, Sidecar> {
    if b in d.buckets && d.buckets[b].meta.Some? then d.buckets[b].meta.value else map[]
  }

  function ObjectFiles(d: Disk, b: Str): map<Str, Str> {
    if b in d.buckets && d.buckets[b].objects.Some? then d.buckets[b].objects.value else map[]
  }

  function HeadObject(d: Disk, b: Str, key: Str): Result<ObjectMeta> {
    Listing.MetaOf(MetaFiles(d, b), key)
  }

  /** `file.take(length)` after a seek. */
  function Window(body: Str, start: nat, length: nat): Str {
    var from := if start < |body| then start else |body|;
    var rest := body[from..];
    if length < |rest| then rest[..length] else rest
  }

  /** Sidecar first, then range, then body. */
  function GetObject(d: Disk, b: Str, key: Str, range: Option<ByteRange>): Result<(ObjectMeta, Str)> {
    var m :- HeadObject(d, b, key);
    if range.Some? && Resolve(range.value, m.size).None? then Failure(RangeNotSatisfiable)
    else
      var encoded :- EncodeKey(key);
      if encoded !in ObjectFiles(d, b) then Failure(NoSuchKey)
      else
        var body := ObjectFiles(d, b)[encoded];
        if range.None? then Success((m, body))
        else
          var w := Resolve(range.value, m.size).value;
          Success((m, Window(body, w.start, w.length)))
  }

  /** Body first, then sidecar. */
  function DeleteObject(d: Disk, b: Str, key: Str): (Disk, Result<()>) {
    if EncodeKey(key).Failure? then (d, Failure(EncodeKey(key).error))
    else
      var encoded := EncodeKey(key).value;
      if encoded == [] && b in d.buckets && d.buckets[b].objects.Some? then (d, Failure(Io))
      else if encoded !in ObjectFiles(d, b) then (d, Failure(NoSuchKey))
      else
        var d' := WithObjects(d, b, ObjectFiles(d, b) - {encoded});
        (if d.buckets[b].meta.Some? then WithMeta(d', b, MetaFiles(d, b) - {SidecarName(encoded)}) else d',
         Success(()))
  }

  /** `names` is the order in which `read_dir` yields the entries of objects/. */
  function ListObjects(d: Disk, b: Str, names: seq<Str>, req: Listing.Request): Result<Listing.Response> {
    if b !in d.buckets then Failure(NoSuchBucket)
    else Listing.Answer(names, MetaFiles(d, b), req)
  }

  // ---- Multipart uploads ----

  function CreateUpload(d: Disk, b: Str, key: Str, contentType: Option<Str>, id: Str): (Disk, Result<Str>) {
    if b !in d.buckets then (d, Failure(NoSuchBucket))
    else
      var staging := Staging(Some(UploadInfo(b, key, contentType)), map[], map[], map[]);
      (WithStaging(d, id, staging), Success(id))
  }

  function UploadPart(d: Disk, id: Str, number: int, chunks: seq<Chunk>): (Disk, Result<ETag>) {
    if number <= 0 then (d, Failure(InvalidPartNumber))
    else if id !in d.uploads then (d, Failure(NoSuchUpload))
    else if Received(chunks).None? then (d, Failure(Io))
    else
      var staging, part := d.uploads[id], Received(chunks).value;
      (WithStaging(d, id, staging.(parts := staging.parts[number := part])), Success(Md5(part)))
  }

  function NumberLeq(m: int, n: int): bool {
    m <= n
  }

  /** The listed parts in the order given, if all of them are there. */
  function PartBytes(parts: map<int, Str>, numbers: seq<int>): Option<Str> {
    if numbers == [] then Some([])
    else
      var n := |numbers| - 1;
      var earlier := PartBytes(parts, numbers[..n]);
      if earlier.Some? && numbers[n] in parts then Some(earlier.value + parts[numbers[n]]) else None
  }

  /** The listed parts in ascending order of number. */
  function Assembled(parts: map<int, Str>, numbers: seq<int>): Option<Str> {
    PartBytes(parts, Sort(NumberLeq, numbers))
  }

  /** `create_dir_all(objects/)`: makes the bucket directory too when that is gone. */
  function EnsureObjects(d: Disk, b: Str): Disk {
    if b !in d.buckets then d.(buckets := d.buckets[b := BucketDir(Some(map[]), None, false)])
    else if d.buckets[b].objects.None? then WithObjects(d, b, map[])
    else d
  }

  /** The object goes to the bucket that the upload was created in, under the key of this
      request; its metadata names the key of the upload. */
  function CompleteUpload(d: Disk, key: Str, id: Str, numbers: seq<int>, now: int): (Disk, Result<ObjectMeta>) {
    if id !in d.uploads || d.uploads[id].info.None? then (d, Failure(NoSuchUpload))
    else
      var info := d.uploads[id].info.value;
      var d' := EnsureObjects(d, info.bucket);
      var body := Assembled(d.uploads[id].parts, numbers);
      if EncodeKey(key).Failure? then (d', Failure(EncodeKey(key).error))
      else if body.None? then (d', Failure(Io))
      else
        var m := ObjectMeta(
          info.key, |body.value|, TypeOr(info.contentType), Md5Parts(body.value, |numbers|), now);
        var (stored, r) := Store(d', info.bucket, EncodeKey(key).value, body.value, m);
        (if r.Success? then stored.(uploads := stored.uploads - {id}) else stored, r)
  }

  function AbortUpload(d: Disk, id: Str): (Disk, Result<()>) {
    if id !in d.uploads then (d, Failure(NoSuchUpload))
    else (d.(uploads := d.uploads - {id}), Success(()))
  }
}
