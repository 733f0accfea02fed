/** The storage operations step by step, as crates/storage/src/fs.rs, meta.rs and multipart.rs
    run them: temp file, chunk by chunk, rename, sidecar. Each is proved to do to the disk what
    module `DiskOps` says. Temp file names and upload ids are drawn fresh by libraries; here they
    are parameters. */
module FsStorage {
  import opened Wrappers
  import opened Bytes
  import opened KeyEncoding
  import opened Meta
  import opened Sorting
  import opened Ranges
  import Listing
  import opened DiskOps

  /** The part numbers in order, as the sorted list the assembly loop walks. */
  lemma PartBytesSnoc(parts: map<int, Str>, numbers: seq<int>, i: nat)
    requires i < |numbers|
    ensures PartBytes(parts, numbers[..i + 1]) ==
      if PartBytes(parts, numbers[..i]).Some? && numbers[i] in parts
      then Some(PartBytes(parts, numbers[..i]).value + parts[numbers[i]])
      else None
  {
    assert numbers[..i + 1][..i] == numbers[..i];
  }

  lemma {:induction false} MissingStays(parts: map<int, Str>, numbers: seq<int>, i: nat)
    requires i <= |numbers| && PartBytes(parts, numbers[..i]).None?
    ensures PartBytes(parts, numbers).None?
    decreases |numbers| - i
  {
    if i < |numbers| {
      PartBytesSnoc(parts, numbers, i);
      MissingStays(parts, numbers, i + 1);
    } else {
      assert numbers[..i] == numbers;
    }
  }

  // ---- A temp file in objects/ ----

  lemma GrowTemp(d: Disk, b: Str, tmp: Str, sofar: Str, more: Str)
    requires b in d.buckets && d.buckets[b].objects.Some?
    ensures var objects, now := d.buckets[b].objects.value, ObjectFiles(d, b)[tmp := sofar];
      WithObjects(WithObjects(d, b, now), b, now[tmp := sofar + more])
        == WithObjects(d, b, objects[tmp := sofar + more])
  {
    var objects := d.buckets[b].objects.value;
    WithObjectsTwice(d, b, objects[tmp := sofar], objects[tmp := sofar][tmp := sofar + more]);
    assert objects[tmp := sofar][tmp := sofar + more] == objects[tmp := sofar + more];
  }

  lemma DropTemp(d: Disk, b: Str, tmp: Str, sofar: Str)
    requires b in d.buckets && d.buckets[b].objects.Some? && tmp !in ObjectFiles(d, b)
    ensures var now := ObjectFiles(d, b)[tmp := sofar];
      WithObjects(WithObjects(d, b, now), b, now - {tmp}) == d
  {
    var objects := d.buckets[b].objects.value;
    WithObjectsTwice(d, b, objects[tmp := sofar], objects[tmp := sofar] - {tmp});
    assert objects[tmp := sofar] - {tmp} == objects;
    WithObjectsSame(d, b);
  }

  lemma PlaceTemp(d: Disk, b: Str, tmp: Str, name: Str, body: Str)
    requires b in d.buckets && d.buckets[b].objects.Some? && tmp !in ObjectFiles(d, b) && tmp != name
    ensures var now := ObjectFiles(d, b)[tmp := body];
      WithObjects(WithObjects(d, b, now), b, Rename(now, tmp, name))
        == WithObjects(d, b, ObjectFiles(d, b)[name := body])
  {
    var objects := d.buckets[b].objects.value;
    WithObjectsTwice(d, b, objects[tmp := body], Rename(objects[tmp := body], tmp, name));
    assert Rename(objects[tmp := body], tmp, name) == objects[name := body];
  }

  /** Names no file of a bucket has yet. */
  predicate FreshTemp(d: Disk, b: Str, tmp: Str) {
    && IsTempName(tmp)
    && tmp !in ObjectFiles(d, b)
    && tmp !in MetaFiles(d, b)
  }

  class FsStorage {
    var disk: Disk

    method CreateBucket(b: Str) returns (r: Result<()>)
      modifies this
      ensures (disk, r) == DiskOps.CreateBucket(old(disk), b)
    {
      if b in disk.buckets {
        return Failure(BucketAlreadyExists);
      }
      disk := disk.(buckets := disk.buckets[b := BucketDir(None, None, false)]);
      disk := WithObjects(disk, b, map[]);
      disk := WithMeta(disk, b, map[]);
      disk := disk.(buckets := disk.buckets[b := disk.buckets[b].(info := true)]);
      assert disk.buckets == DiskOps.CreateBucket(old(disk), b).0.buckets;
      r := Success(());
    }

    method DeleteBucket(b: Str) returns (r: Result<()>)
      modifies this
      ensures (disk, r) == DiskOps.DeleteBucket(old(disk), b)
    {
      if b !in disk.buckets {
        return Failure(NoSuchBucket);
      }
      if ObjectFiles(disk, b) != map[] {
        return Failure(BucketNotEmpty);
      }
      disk := disk.(buckets := disk.buckets[b := disk.buckets[b].(objects := None)]);
      if MetaFiles(disk, b) != map[] {
        assert disk.buckets == DiskOps.DeleteBucket(old(disk), b).0.buckets;
        return Failure(BucketNotEmpty);
      }
      disk := disk.(buckets := disk.buckets[b := disk.buckets[b].(meta := None)]);
      disk := disk.(buckets := disk.buckets[b := disk.buckets[b].(info := false)]);
      disk := disk.(buckets := disk.buckets - {b});
      assert disk.buckets == old(disk).buckets - {b};
      r := Success(());
    }

    /** `write_object_body`: on success only the named file has changed, on failure none. */
    method WriteObjectBody(b: Str, encoded: Str, chunks: seq<Chunk>, tmp: Str)
      returns (r: Result<(ETag, nat)>)
      requires b in disk.buckets && FreshTemp(disk, b, tmp) && tmp != encoded
      modifies this
      ensures var dir := old(disk).buckets[b];
        if dir.objects.Some? && Received(chunks).Some? && encoded != [] then
          var body := Received(chunks).value;
          && r == Success((Md5(body), |body|))
          && disk == WithObjects(old(disk), b, dir.objects.value[encoded := body])
        else
          r == Failure(Io) && disk == old(disk)
    {
      ghost var before := disk;
      if disk.buckets[b].objects.None? {
        return Failure(Io);
      }
      ghost var objects := disk.buckets[b].objects.value;
      WithObjectsSame(before, b);
      disk := WithObjects(disk, b, ObjectFiles(disk, b)[tmp := []]);
      var hasher, bytesWritten := Hasher([]), 0;
      for i := 0 to |chunks|
        invariant Received(chunks[..i]) == Some(hasher.fed) && bytesWritten == |hasher.fed|
        invariant disk == WithObjects(before, b, objects[tmp := hasher.fed])
      {
        ReceivedSnoc(chunks, i);
        if chunks[i].Broken? {
          BrokenStays(chunks, i + 1);
          DropTemp(before, b, tmp, hasher.fed);
          disk := WithObjects(disk, b, ObjectFiles(disk, b) - {tmp});
          return Failure(Io);
        }
        GrowTemp(before, b, tmp, hasher.fed, chunks[i].bytes);
        hasher := hasher.Update(chunks[i].bytes);
        bytesWritten := bytesWritten + |chunks[i].bytes|;
        disk := WithObjects(disk, b, ObjectFiles(disk, b)[tmp := ObjectFiles(disk, b)[tmp] + chunks[i].bytes]);
      }
      assert chunks[..|chunks|] == chunks;
      if encoded == [] {
        DropTemp(before, b, tmp, hasher.fed);
        disk := WithObjects(disk, b, ObjectFiles(disk, b) - {tmp});
        return Failure(Io);
      }
      PlaceTemp(before, b, tmp, encoded, hasher.fed);
      disk := WithObjects(disk, b, Rename(ObjectFiles(disk, b), tmp, encoded));
      r := Success((hasher.Finalize(), bytesWritten));
    }

    /** `write_sidecar`: the temp file is torn until all of the JSON is written. */
    method WriteSidecar(b: Str, encoded: Str, m: ObjectMeta, tmp: Str) returns (r: Result<()>)
      requires b in disk.buckets && FreshTemp(disk, b, tmp) && tmp != SidecarName(encoded)
      modifies this
      ensures var dir := old(disk).buckets[b];
        if dir.meta.Some? then
          && r == Success(())
          && disk == WithMeta(old(disk), b, dir.meta.value[SidecarName(encoded) := Json(m)])
        else
          r == Failure(Io) && disk == old(disk)
    {
      if disk.buckets[b].meta.None? {
        return Failure(Io);
      }
      ghost var before, meta := disk, disk.buckets[b].meta.value;
      disk := WithMeta(disk, b, MetaFiles(disk, b)[tmp := Torn]);
      disk := WithMeta(disk, b, MetaFiles(disk, b)[tmp := Json(m)]);
      WithMetaTwice(before, b, meta[tmp := Torn], meta[tmp := Torn][tmp := Json(m)]);
      WithMetaTwice(before, b, meta[tmp := Torn][tmp := Json(m)], meta[SidecarName(encoded) := Json(m)]);
      disk := WithMeta(disk, b, Rename(MetaFiles(disk, b), tmp, SidecarName(encoded)));
      assert Rename(meta[tmp := Torn][tmp := Json(m)], tmp, SidecarName(encoded))
          == meta[SidecarName(encoded) := Json(m)];
      r := Success(());
    }

    method PutObject(b: Str, key: Str, chunks: seq<Chunk>, contentType: Option<Str>, now: int, tmp: Str)
      returns (r: Result<ObjectMeta>)
      requires FreshTemp(disk, b, tmp)
      modifies this
      ensures (disk, r) == DiskOps.PutObject(old(disk), b, key, chunks, contentType, now)
    {
      if b !in disk.buckets {
        return Failure(NoSuchBucket);
      }
      var encoded := EncodeKey(key);
      if encoded.Failure? {
        return Failure(encoded.error);
      }
      NamesApart(key, tmp);
      var written := WriteObjectBody(b, encoded.value, chunks, tmp);
      if written.Failure? {
        return Failure(written.error);
      }
      var m := ObjectMeta(key, written.value.1, TypeOr(contentType), written.value.0, now);
      var recorded := WriteSidecar(b, encoded.value, m, tmp);
      if recorded.Failure? {
        return Failure(recorded.error);
      }
      r := Success(m);
    }

    method GetObject(b: Str, key: Str, range: Option<ByteRange>) returns (r: Result<(ObjectMeta, Str)>)
      ensures r == DiskOps.GetObject(disk, b, key, range)
    {
      var encoded := EncodeKey(key);
      if encoded.Failure? {
        return Failure(encoded.error);
      }
      var m := ReadSidecar(MetaFiles(disk, b), SidecarName(encoded.value));
      if m.Failure? {
        return Failure(m.error);
      }
      var files := ObjectFiles(disk, b);
      if range.None? {
        if encoded.value !in files {
          return Failure(NoSuchKey);
        }
        return Success((m.value, files[encoded.value]));
      }
      var resolved := Resolve(range.value, m.value.size);
      if resolved.None? {
        return Failure(RangeNotSatisfiable);
      }
      if encoded.value !in files {
        return Failure(NoSuchKey);
      }
      r := Success((m.value, Window(files[encoded.value], resolved.value.start, resolved.value.length)));
    }

    method HeadObject(b: Str, key: Str) returns (r: Result<ObjectMeta>)
      ensures r == DiskOps.HeadObject(disk, b, key)
    {
      var encoded := EncodeKey(key);
      if encoded.Failure? {
        return Failure(encoded.error);
      }
      r := ReadSidecar(MetaFiles(disk, b), SidecarName(encoded.value));
    }

    method DeleteObject(b: Str, key: Str) returns (r: Result<()>)
      modifies this
      ensures (disk, r) == DiskOps.DeleteObject(old(disk), b, key)
    {
      var encoded := EncodeKey(key);
      if encoded.Failure? {
        return Failure(encoded.error);
      }
      if encoded.value == [] && b in disk.buckets && disk.buckets[b].objects.Some? {
        return Failure(Io);
      }
      if encoded.value !in ObjectFiles(disk, b) {
        return Failure(NoSuchKey);
      }
      disk := WithObjects(disk, b, ObjectFiles(disk, b) - {encoded.value});
      if disk.buckets[b].meta.Some? {
        disk := WithMeta(disk, b, MetaFiles(disk, b) - {SidecarName(encoded.value)});
      }
      r := Success(());
    }

    method ListObjectsV2(b: Str, names: seq<Str>, req: Listing.Request) returns (r: Result<Listing.Response>)
      requires multiset(names) == multiset(ObjectFiles(disk, b).Keys)
      ensures r == DiskOps.ListObjects(disk, b, names, req)
    {
      if b !in disk.buckets {
        return Failure(NoSuchBucket);
      }
      r := Listing.ListObjectsV2(names, MetaFiles(disk, b), req);
    }

    method CreateMultipartUpload(b: Str, key: Str, contentType: Option<Str>, id: Str, tmp: Str)
      returns (r: Result<Str>)
      requires id !in disk.uploads && IsTempName(tmp)
      modifies this
      ensures (disk, r) == DiskOps.CreateUpload(old(disk), b, key, contentType, id)
    {
      if b !in disk.buckets {
        return Failure(NoSuchBucket);
      }
      ghost var before := disk;
      var info, empty := UploadInfo(b, key, contentType), Staging(None, map[], map[], map[]);
      disk := WithStaging(disk, id, empty);
      disk := WithStaging(disk, id, empty.(infoTemps := map[tmp := None]));
      disk := WithStaging(disk, id, empty.(infoTemps := map[tmp := Some(info)]));
      disk := WithStaging(disk, id, empty.(info := Some(info)));
      assert disk.uploads == before.uploads[id := empty.(info := Some(info))];
      r := Success(id);
    }

    method UploadPart(id: Str, number: int, chunks: seq<Chunk>, tmp: Str) returns (r: Result<ETag>)
      requires id in disk.uploads ==> tmp !in disk.uploads[id].temps
      modifies this
      ensures (disk, r) == DiskOps.UploadPart(old(disk), id, number, chunks)
    {
      if number <= 0 {
        return Failure(InvalidPartNumber);
      }
      if id !in disk.uploads {
        return Failure(NoSuchUpload);
      }
      ghost var before := disk;
      var staging := disk.uploads[id];
      disk := WithStaging(disk, id, staging.(temps := staging.temps[tmp := []]));
      var hasher := Hasher([]);
      for i := 0 to |chunks|
        invariant Received(chunks[..i]) == Some(hasher.fed)
        invariant disk == WithStaging(before, id, staging.(temps := staging.temps[tmp := hasher.fed]))
      {
        ReceivedSnoc(chunks, i);
        ghost var now := staging.(temps := staging.temps[tmp := hasher.fed]);
        if chunks[i].Broken? {
          BrokenStays(chunks, i + 1);
          WithStagingTwice(before, id, now, staging);
          assert staging.temps[tmp := hasher.fed] - {tmp} == staging.temps;
          disk := WithStaging(disk, id, staging.(temps := disk.uploads[id].temps - {tmp}));
          return Failure(Io);
        }
        hasher := hasher.Update(chunks[i].bytes);
        WithStagingTwice(before, id, now, staging.(temps := staging.temps[tmp := hasher.fed]));
        assert now.temps[tmp := hasher.fed] == staging.temps[tmp := hasher.fed];
        disk := WithStaging(disk, id, staging.(temps := disk.uploads[id].temps[tmp := hasher.fed]));
      }
      assert chunks[..|chunks|] == chunks;
      assert staging.temps[tmp := hasher.fed] - {tmp} == staging.temps;
      ghost var placed := staging.(parts := staging.parts[number := hasher.fed]);
      WithStagingTwice(before, id, disk.uploads[id], placed);
      disk := WithStaging(disk, id, staging.(
        temps := disk.uploads[id].temps - {tmp},
        parts := staging.parts[number := disk.uploads[id].temps[tmp]]));
      r := Success(hasher.Finalize());
    }

    /** The parts are streamed one after the other into one temp file. */
    method CompleteMultipartUpload(key: Str, id: Str, numbers: seq<int>, now: int, tmp: Str)
      returns (r: Result<ObjectMeta>)
      requires IsTempName(tmp) && forall b :: FreshTemp(disk, b, tmp)
      modifies this
      ensures (disk, r) == DiskOps.CompleteUpload(old(disk), key, id, numbers, now)
    {
      hide EncodeKey, Sort, SidecarName, IsTempName;
      if id !in disk.uploads || disk.uploads[id].info.None? {
        return Failure(NoSuchUpload);
      }
      var info, parts := disk.uploads[id].info.value, disk.uploads[id].parts;
      var b := info.bucket;
      var sorted := Sort(NumberLeq, numbers);
      SameElements(sorted, numbers);
      assert FreshTemp(disk, b, tmp);
      disk := EnsureObjects(disk, b);
      var encoded := EncodeKey(key);
      if encoded.Failure? {
        return Failure(encoded.error);
      }
      NamesApart(key, tmp);
      ghost var before := disk;
      ghost var objects := disk.buckets[b].objects.value;
      disk := WithObjects(disk, b, ObjectFiles(disk, b)[tmp := []]);
      var hasher, bytesWritten := Hasher([]), 0;
      for i := 0 to |sorted|
        invariant PartBytes(parts, sorted[..i]) == Some(hasher.fed) && bytesWritten == |hasher.fed|
        invariant disk == WithObjects(before, b, objects[tmp := hasher.fed])
      {
        PartBytesSnoc(parts, sorted, i);
        if sorted[i] !in parts {
          MissingStays(parts, sorted, i + 1);
          DropTemp(before, b, tmp, hasher.fed);
          disk := WithObjects(disk, b, ObjectFiles(disk, b) - {tmp});
          return Failure(Io);
        }
        var part := parts[sorted[i]];
        GrowTemp(before, b, tmp, hasher.fed, part);
        hasher := hasher.Update(part);
        bytesWritten := bytesWritten + |part|;
        disk := WithObjects(disk, b, ObjectFiles(disk, b)[tmp := ObjectFiles(disk, b)[tmp] + part]);
      }
      assert sorted[..|sorted|] == sorted;
      if encoded.value == [] {
        DropTemp(before, b, tmp, hasher.fed);
        disk := WithObjects(disk, b, ObjectFiles(disk, b) - {tmp});
        return Failure(Io);
      }
      PlaceTemp(before, b, tmp, encoded.value, hasher.fed);
      disk := WithObjects(disk, b, Rename(ObjectFiles(disk, b), tmp, encoded.value));

      var m := ObjectMeta(
        info.key, bytesWritten, TypeOr(info.contentType), Md5Parts(hasher.Finalize().of, |sorted|), now);
      var recorded := WriteSidecar(b, encoded.value, m, tmp);
      if recorded.Failure? {
        return Failure(recorded.error);
      }
      disk := disk.(uploads := disk.uploads - {id});
      r := Success(m);
    }

    method AbortMultipartUpload(id: Str) returns (r: Result<()>)
      modifies this
      ensures (disk, r) == DiskOps.AbortUpload(old(disk), id)
    {
      if id !in disk.uploads {
        return Failure(NoSuchUpload);
      }
      disk := disk.(uploads := disk.uploads - {id});
      r := Success(());
    }
  }
}
