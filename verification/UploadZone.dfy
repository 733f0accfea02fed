/** The browser's multipart protocol against the server: crates/ui/src/islands/upload_zone.rs:421-517,
    through the addresses it builds and the handler of crates/server/src/ui/upload.rs. */
module UploadZone {
  import opened Wrappers
  import opened Bytes
  import opened KeyEncoding
  import opened Meta
  import opened Sorting
  import opened DiskOps
  import opened FsStorage
  import opened Assembly
  import opened Decimals
  import opened PartList
  import opened UploadUrl
  import opened UploadHandler
  import Frames
  import Laws
  import ObjectMap

  const PART_SIZE := 8 * 1024 * 1024

  datatype UploadStatus = Done | Error

  /** What becomes of a request: it never reaches the server, its reply never reaches the
      browser, or both arrive. */
  datatype Delivery = LostRequest | LostReply | Delivered

  /** The fate of each step of one upload, and what the surroundings add to its requests:
      to the first, to that of part n, and to the last. */
  datatype Network = Network(
    create: Delivery, slices: nat -> bool, posts: nat -> Delivery, complete: Delivery, abort: Delivery,
    context: nat -> Context)

  function NumParts(size: nat): (n: nat)
    ensures n >= 1
  {
    var n := (size + PART_SIZE - 1) / PART_SIZE;
    if n > 1 then n else 1
  }

  /** End of part `n`: `min(n * PART_SIZE, size)`. */
  function PartEnd(size: nat, n: nat): (end: nat)
    ensures end <= size
  {
    if n * PART_SIZE < size then n * PART_SIZE else size
  }

  /** The bytes the loop cuts out for part `n`. */
  function Slice(file: Str, n: nat): Str
    requires n >= 1
  {
    file[PartEnd(|file|, n - 1)..PartEnd(|file|, n)]
  }

  function Slices(file: Str, n: nat): map<int, Str> {
    map k: int | 1 <= k <= n :: Slice(file, k)
  }

  // ---- The slices make up the file ----

  lemma LastPartEnds(size: nat)
    ensures PartEnd(size, NumParts(size)) == size
    ensures forall n: nat :: n < NumParts(size) ==> n * PART_SIZE <= size
  {
  }

  lemma NumbersAscending(n: nat)
    ensures Sort(NumberLeq, Numbers(n)) == Numbers(n)
  {
    NumbersTotalOrder();
    SortCanonical(NumberLeq, Numbers(n), Numbers(n));
  }

  lemma TakeMore(file: Str, a: nat, b: nat)
    requires a <= b <= |file|
    ensures file[..a] + file[a..b] == file[..b]
  {
  }

  lemma {:induction false} SlicesJoin(file: Str, parts: map<int, Str>, n: nat)
    requires forall k: int :: 1 <= k <= n ==> k in parts && parts[k] == Slice(file, k)
    ensures PartBytes(parts, Numbers(n)) == Some(file[..PartEnd(|file|, n)])
  {
    if n > 0 {
      SlicesJoin(file, parts, n - 1);
      assert Numbers(n)[..n - 1] == Numbers(n - 1) && Numbers(n)[n - 1] == n;
      var a, b := PartEnd(|file|, n - 1), PartEnd(|file|, n);
      TakeMore(file, a, b);
    }
  }

  /** The slices partition the file in order, so their assembly is the file. */
  lemma SlicesAssemble(file: Str, parts: map<int, Str>)
    requires forall k: int :: 1 <= k <= NumParts(|file|) ==> k in parts && parts[k] == Slice(file, k)
    ensures Assembled(parts, Numbers(NumParts(|file|))) == Some(file)
  {
    var n := NumParts(|file|);
    SlicesJoin(file, parts, n);
    LastPartEnds(|file|);
    NumbersAscending(n);
    assert file[..|file|] == file;
  }

  /** Parts of 8388608 bytes: as many as it takes, at least one; all but the last are of that size. */
  lemma PartSizes(file: Str, n: nat)
    requires 1 <= n <= NumParts(|file|)
    ensures NumParts(|file|) >= 1 && |file| <= 8388608 * NumParts(|file|)
    ensures NumParts(|file|) > 1 ==> 8388608 * (NumParts(|file|) - 1) < |file|
    ensures n < NumParts(|file|) ==> |Slice(file, n)| == 8388608
    ensures n == NumParts(|file|) ==> |Slice(file, n)| == |file| - 8388608 * (n - 1) <= 8388608
  {
    LastPartEnds(|file|);
  }

  // ---- The disk along the protocol ----

  /** The disk with an upload that holds the first `n` parts. */
  function Uploading(d: Disk, id: Str, info: UploadInfo, file: Str, n: nat): Disk {
    WithStaging(d, id, Staging(Some(info), Slices(file, n), map[], map[]))
  }

  /** The disk with the whole file stored under the key, and nothing else changed. */
  function Stored(d: Disk, b: Str, key: Str, contentType: Option<Str>, file: Str, now: int): Disk
    requires EncodeKey(key).Success?
    requires b in d.buckets && d.buckets[b].objects.Some? && d.buckets[b].meta.Some?
  {
    var m := ObjectMeta(key, |file|, TypeOr(contentType), Md5Parts(file, NumParts(|file|)), now);
    d.(buckets := d.buckets[b := ObjectMap.WithObject(d.buckets[b], EncodeKey(key).value, file, m)])
  }

  lemma PostPart(d: Disk, id: Str, info: UploadInfo, file: Str, n: nat)
    requires n >= 1
    ensures UploadPart(Uploading(d, id, info, file, n - 1), id, n, [Data(Slice(file, n))])
         == (Uploading(d, id, info, file, n), Success(Md5(Slice(file, n))))
  {
    var part := Slice(file, n);
    ReceivedWhole(part);
    var before := Staging(Some(info), Slices(file, n - 1), map[], map[]);
    var after := before.(parts := Slices(file, n));
    assert before.parts[n := part] == after.parts;
    WithStagingTwice(d, id, before, after);
    assert Uploading(d, id, info, file, n - 1).uploads[id] == before;
  }

  lemma DropStaging(d: Disk, id: Str, staging: Staging)
    requires id !in d.uploads
    ensures WithStaging(d, id, staging).(uploads := WithStaging(d, id, staging).uploads - {id}) == d
  {
    assert WithStaging(d, id, staging).uploads - {id} == d.uploads;
  }

  lemma CompleteWholeFile(d: Disk, b: Str, key: Str, contentType: Option<Str>, id: Str, file: Str, now: int)
    requires id !in d.uploads && b in d.buckets && ObjectMap.SoundBucket(d.buckets[b])
    ensures var uploading := Uploading(d, id, UploadInfo(b, key, contentType), file, NumParts(|file|));
      var (d', r) := CompleteUpload(uploading, key, id, Numbers(NumParts(|file|)), now);
      if EncodeKey(key).Success? && key != [] then r.Success? && d' == Stored(d, b, key, contentType, file, now)
      else r.Failure? && d' == uploading
  {
    hide EncodeKey, DecodeKey, Assembled;
    var staging := Staging(Some(UploadInfo(b, key, contentType)), Slices(file, NumParts(|file|)), map[], map[]);
    SlicesAssemble(file, staging.parts);
    DropStaging(d, id, staging);
    if EncodeKey(key).Success? {
      EncodedNames(key, key);
      if key != [] {
        var uploading := WithStaging(d, id, staging);
        var (d', r) := CompleteUpload(uploading, key, id, Numbers(NumParts(|file|)), now);
        assert d'.buckets == Stored(d, b, key, contentType, file, now).buckets;
        assert d'.uploads == d.uploads;
      }
    }
  }

  // ---- The protocol ----

  /** A request, and what the browser sees of its answer: the text of a good one, or nothing. */
  function Send(d: Disk, address: Str, body: seq<Chunk>, c: Context, delivery: Delivery): (Disk, Option<Str>) {
    if delivery.LostRequest? then (d, None)
    else
      var (d', answer) := Handle(d, address, body, c);
      (d', if delivery.LostReply? then None else answer)
  }

  /** The loop from part `n` on: the disk, the numbers remembered, and whether it failed. */
  function PostFrom(d: Disk, file: Str, b: Str, key: Str, id: Str, net: Network, n: nat): (Disk, seq<int>, bool)
    requires n >= 1
    decreases NumParts(|file|) + 1 - n
  {
    if n > NumParts(|file|) then (d, [], false)
    else if !net.slices(n) then (d, [], true)
    else
      var address := Address(b, key, PartQuery(id, n));
      var (d', seen) := Send(d, address, [Data(Slice(file, n))], net.context(n), net.posts(n));
      if seen.None? then (d', [], true)
      else
        var (d'', numbers, failed) := PostFrom(d', file, b, key, id, net, n + 1);
        (d'', [n] + numbers, failed)
  }

  /** What follows the loop: abort or complete. */
  function EndUpload(d: Disk, file: Str, b: Str, key: Str, id: Str, net: Network, numbers: seq<int>, failed: bool)
    : (Disk, UploadStatus)
  {
    var c := net.context(NumParts(|file|) + 1);
    if failed then (Send(d, Address(b, key, ActionQuery(id, ABORT)), [], c, net.abort).0, Error)
    else
      var text := [Data(ListText(numbers))];
      var (d', seen) := Send(d, Address(b, key, ActionQuery(id, COMPLETE)), text, c, net.complete);
      (d', if seen.Some? then Done else Error)
  }

  /** One upload: what it does to the disk and what the browser reports. */
  function Upload(d: Disk, file: Str, b: Str, key: Str, net: Network): (Disk, UploadStatus) {
    var (d1, id) := Send(d, Address(b, key, CreateQuery()), [], net.context(0), net.create);
    if id.None? then (d1, Error)
    else
      var (d2, numbers, failed) := PostFrom(d1, file, b, key, id.value, net, 1);
      EndUpload(d2, file, b, key, id.value, net, numbers, failed)
  }

  /** Ids are drawn fresh. */
  ghost predicate FreshIds(d: Disk, net: Network, from: nat) {
    && (forall i: nat :: i >= from ==> net.context(i).id !in d.uploads)
    && (forall i: nat :: IsUploadId(net.context(i).id))
    && (forall i: nat, j: nat :: i < j ==> net.context(i).id != net.context(j).id)
  }

  lemma SendKeepsRest(
      d: Disk, address: Str, body: seq<Chunk>, net: Network, i: nat, delivery: Delivery, tmp: Str)
    requires AtRest(d, tmp) && FreshIds(d, net, i)
    ensures var d' := Send(d, address, body, net.context(i), delivery).0;
      AtRest(d', tmp) && FreshIds(d', net, i + 1)
  {
    hide Handle, AtRest, IsUploadId;
    HandleKeepsRest(d, address, body, net.context(i), tmp);
  }

  /** `post_text` and `post_blob` over the network. */
  method SendRequest(
      storage: FsStorage, address: Str, body: seq<Chunk>, net: Network, i: nat, delivery: Delivery, tmp: Str)
    returns (seen: Option<Str>)
    requires AtRest(storage.disk, tmp) && FreshIds(storage.disk, net, i)
    modifies storage
    ensures (storage.disk, seen) == Send(old(storage.disk), address, body, net.context(i), delivery)
    ensures AtRest(storage.disk, tmp) && FreshIds(storage.disk, net, i + 1)
  {
    hide Handle, AtRest;
    SendKeepsRest(storage.disk, address, body, net, i, delivery, tmp);
    if delivery.LostRequest? {
      return None;
    }
    var answer := Post(storage, address, body, net.context(i), tmp);
    return if delivery.LostReply? then None else answer;
  }

  /** The loop over part numbers: slice, post, remember the number. */
  method PostParts(storage: FsStorage, file: Str, b: Str, key: Str, id: Str, net: Network, tmp: Str)
    returns (partNumbers: seq<int>, failed: bool)
    requires AtRest(storage.disk, tmp) && FreshIds(storage.disk, net, 1)
    modifies storage
    ensures (storage.disk, partNumbers, failed) == PostFrom(old(storage.disk), file, b, key, id, net, 1)
    ensures AtRest(storage.disk, tmp) && FreshIds(storage.disk, net, NumParts(|file|) + 1)
  {
    hide Handle, AtRest, Send, FreshIds;
    var numParts := NumParts(|file|);
    ghost var d := storage.disk;
    LastPartEnds(|file|);
    partNumbers, failed := [], false;
    ghost var all := PostFrom(d, file, b, key, id, net, 1);
    assert [] + all.1 == all.1;
    for partNum := 1 to numParts + 1
      invariant AtRest(storage.disk, tmp) && FreshIds(storage.disk, net, partNum)
      invariant !failed
      invariant var (d', numbers, failed') := PostFrom(storage.disk, file, b, key, id, net, partNum);
        PostFrom(d, file, b, key, id, net, 1) == (d', partNumbers + numbers, failed')
    {
      var start := (partNum - 1) * PART_SIZE;
      var end := if partNum * PART_SIZE < |file| then partNum * PART_SIZE else |file|;
      assert start <= end <= |file| && file[start..end] == Slice(file, partNum);
      if !net.slices(partNum) {
        failed := true;
        LaterIds(storage.disk, net, partNum, numParts + 1);
        assert partNumbers + [] == partNumbers;
        return;
      }
      var posted := SendRequest(
        storage, Address(b, key, PartQuery(id, partNum)), [Data(file[start..end])],
        net, partNum, net.posts(partNum), tmp);
      if posted.None? {
        failed := true;
        LaterIds(storage.disk, net, partNum + 1, numParts + 1);
        assert partNumbers + [] == partNumbers;
        return;
      }
      ghost var numbers := PostFrom(storage.disk, file, b, key, id, net, partNum + 1).1;
      assert partNumbers + ([partNum] + numbers) == partNumbers + [partNum] + numbers;
      partNumbers := partNumbers + [partNum];
    }
    assert partNumbers + [] == partNumbers;
  }

  lemma LaterIds(d: Disk, net: Network, i: nat, j: nat)
    requires FreshIds(d, net, i) && i <= j
    ensures FreshIds(d, net, j)
  {
  }

  // ---- Plain keys ----

  /** A request for a plain key does what its query says. */
  lemma HandlePlain(d: Disk, b: Str, key: Str, q: Str, p: Params, body: seq<Chunk>, c: Context)
    requires IsBucketName(b) && PlainKey(key) && ValidUtf8(key)
    requires IsPlainQuery(q) && ReadParams(Some(q)) == Some(p)
    ensures Handle(d, Address(b, key, q), body, c) == Answered(d, OpFor(b, key, p, body, c))
  {
    hide Arrives, ReadParams, OpFor, ObjectMap.Run, PlainKey, IsBucketName, IsPlainQuery, ValidUtf8, Address;
    PlainKeyArrives(b, key, q);
  }

  lemma ReceivedWhole(body: Str)
    ensures Received([Data(body)]) == Some(body)
  {
    assert [Data(body)][..0] == [];
    assert [] + body == body;
  }

  lemma PlainCreate(d: Disk, b: Str, key: Str, file: Str, c: Context)
    requires IsBucketName(b) && PlainKey(key) && ValidUtf8(key)
    ensures Handle(d, Address(b, key, CreateQuery()), [], c) ==
      if b in d.buckets then (Uploading(d, c.id, UploadInfo(b, key, c.contentType), file, 0), Some(c.id)) else (d, None)
  {
    hide Handle, PlainKey, IsBucketName, ValidUtf8, ReadParams, IsPlainQuery;
    CreateParams();
    HandlePlain(d, b, key, CreateQuery(), Params(None, None, Some(CREATE)), [], c);
    assert Slices(file, 0) == map[];
  }

  lemma PlainPart(d: Disk, b: Str, key: Str, id: Str, info: UploadInfo, file: Str, n: nat, c: Context)
    requires IsBucketName(b) && PlainKey(key) && ValidUtf8(key) && IsUploadId(id) && n >= 1
    ensures Handle(Uploading(d, id, info, file, n - 1), Address(b, key, PartQuery(id, n)), [Data(Slice(file, n))], c) ==
      if n <= MAX_I32 then (Uploading(d, id, info, file, n), Some([]))
      else (Uploading(d, id, info, file, n - 1), None)
  {
    hide PlainKey, IsBucketName, ValidUtf8, IsUploadId, ReadParams, IsPlainQuery, Arrives, Uploading;
    PartParams(id, n);
    if n <= MAX_I32 {
      HandlePlain(Uploading(d, id, info, file, n - 1), b, key, PartQuery(id, n), Params(Some(id), Some(n), None),
                  [Data(Slice(file, n))], c);
      PostPart(d, id, info, file, n);
    } else {
      PlainKeyArrives(b, key, PartQuery(id, n));
    }
  }

  lemma PlainAbort(d: Disk, b: Str, key: Str, id: Str, info: UploadInfo, file: Str, n: nat, c: Context)
    requires IsBucketName(b) && PlainKey(key) && ValidUtf8(key) && IsUploadId(id) && id !in d.uploads
    ensures Handle(Uploading(d, id, info, file, n), Address(b, key, ActionQuery(id, ABORT)), [], c) == (d, Some([]))
  {
    hide Handle, PlainKey, IsBucketName, ValidUtf8, IsUploadId, ReadParams, IsPlainQuery;
    ActionParams(id, ABORT);
    HandlePlain(Uploading(d, id, info, file, n), b, key, ActionQuery(id, ABORT),
                Params(Some(id), None, Some(ABORT)), [], c);
    DropStaging(d, id, Uploading(d, id, info, file, n).uploads[id]);
  }

  /** Completing stores the file if the key can be encoded and the list is not too long. */
  lemma PlainComplete(d: Disk, b: Str, key: Str, contentType: Option<Str>, id: Str, file: Str, c: Context)
    requires IsBucketName(b) && PlainKey(key) && ValidUtf8(key) && IsUploadId(id) && id !in d.uploads
    requires b in d.buckets && ObjectMap.SoundBucket(d.buckets[b])
    ensures var n := NumParts(|file|);
      var uploading := Uploading(d, id, UploadInfo(b, key, contentType), file, n);
      Handle(uploading, Address(b, key, ActionQuery(id, COMPLETE)), [Data(ListText(Numbers(n)))], c) ==
        if EncodeKey(key).Success? && n <= MAX_PARTS then (Stored(d, b, key, contentType, file, c.now), Some([]))
        else (uploading, None)
  {
    hide Handle, PlainKey, IsBucketName, ValidUtf8, IsUploadId, ReadParams, IsPlainQuery, EncodeKey, ListText;
    hide ReadList, CompleteUpload, Uploading, Stored, ObjectMap.SoundBucket;
    var n := NumParts(|file|);
    var uploading := Uploading(d, id, UploadInfo(b, key, contentType), file, n);
    var text := ListText(Numbers(n));
    ActionParams(id, COMPLETE);
    HandlePlain(uploading, b, key, ActionQuery(id, COMPLETE), Params(Some(id), None, Some(COMPLETE)), [Data(text)], c);
    ReceivedWhole(text);
    ListFits(n);
    if n <= MAX_PARTS {
      ListReads(Numbers(n));
      assert key != [] by {
        PlainNotEmpty(key);
      }
      CompleteWholeFile(d, b, key, contentType, id, file, c.now);
    }
  }

  lemma PlainNotEmpty(key: Str)
    requires PlainKey(key)
    ensures key != []
  {
  }

  /** Part k is sliced, posted and answered. */
  predicate PartOk(net: Network, k: nat) {
    net.slices(k) && net.posts(k).Delivered? && k <= MAX_I32
  }

  ghost predicate PartFails(net: Network, from: nat, to: nat) {
    exists k: nat :: from <= k <= to && !PartOk(net, k)
  }

  function NumbersFrom(from: nat, to: nat): seq<int>
    requires from <= to + 1
  {
    seq(to + 1 - from, i => from + i)
  }

  /** The loop stores a prefix of the slices, all of them unless it fails. */
  lemma {:induction false} PlainParts(
      d: Disk, file: Str, b: Str, key: Str, id: Str, info: UploadInfo, net: Network, n: nat)
    returns (reached: nat)
    requires IsBucketName(b) && PlainKey(key) && ValidUtf8(key) && IsUploadId(id) && 1 <= n <= NumParts(|file|) + 1
    ensures var (d', numbers, failed) := PostFrom(Uploading(d, id, info, file, n - 1), file, b, key, id, net, n);
      && d' == Uploading(d, id, info, file, reached)
      && (failed <==> PartFails(net, n, NumParts(|file|)))
      && (!failed ==> reached == NumParts(|file|) && numbers == NumbersFrom(n, NumParts(|file|)))
    decreases NumParts(|file|) + 1 - n
  {
    hide Handle, PlainKey, IsBucketName, ValidUtf8, IsUploadId, Uploading, Address, PartQuery, Slice;
    reached := n - 1;
    if n <= NumParts(|file|) {
      PlainPart(d, b, key, id, info, file, n, net.context(n));
      FailsHereOrLater(net, n, NumParts(|file|));
      if PartOk(net, n) {
        reached := PlainParts(d, file, b, key, id, info, net, n + 1);
        assert [n] + NumbersFrom(n + 1, NumParts(|file|)) == NumbersFrom(n, NumParts(|file|));
      } else if net.slices(n) && !net.posts(n).LostRequest? && n <= MAX_I32 {
        reached := n;
      }
    }
  }

  lemma FailsHereOrLater(net: Network, from: nat, to: nat)
    requires from <= to
    ensures PartFails(net, from, to) <==> !PartOk(net, from) || PartFails(net, from + 1, to)
  {
    hide PartOk;
    if k: nat :| from <= k <= to && !PartOk(net, k) {
      assert k == from || from + 1 <= k;
    }
  }

  /** The upload has stored exactly the file, and changed nothing else. */
  ghost predicate StoredWhole(d: Disk, d': Disk, b: Str, key: Str, net: Network, file: Str) {
    && EncodeKey(key).Success?
    && b in d.buckets && ObjectMap.SoundBucket(d.buckets[b])
    && d' == Stored(d, b, key, net.context(0).contentType, file, net.context(NumParts(|file|) + 1).now)
  }

  /** Everything gets through from the first request to the last part. */
  ghost predicate PartsThrough(net: Network, n: nat) {
    net.create.Delivered? && !PartFails(net, 1, n)
  }

  /** A plain key. Whatever the network does, the stored objects end as they were, or the key
      holds exactly the original file. Success is reported exactly when every request and reply
      gets through, the bucket exists, the key can be encoded and the file has at most 165668
      parts, and then the file is stored. When a slice or a part fails, the objects are as they
      were, and once the abort has arrived nothing is left. A file of more parts is refused when
      all of it has arrived, and its parts stay. */
  lemma PlainUpload(d: Disk, file: Str, b: Str, key: Str, net: Network)
    requires ObjectMap.Sound(d) && FreshIds(d, net, 0)
    requires IsBucketName(b) && ValidUtf8(key) && PlainKey(key)
    ensures var (d', status) := Upload(d, file, b, key, net);
      var n := NumParts(|file|);
      && (d'.buckets == d.buckets || StoredWhole(d, d', b, key, net, file))
      && (status.Done? <==>
           && PartsThrough(net, n) && net.complete.Delivered?
           && b in d.buckets && EncodeKey(key).Success? && n <= MAX_PARTS)
      && (status.Done? ==> StoredWhole(d, d', b, key, net, file))
      && (net.create.Delivered? && b in d.buckets && PartFails(net, 1, n) ==>
           d'.buckets == d.buckets && (!net.abort.LostRequest? ==> d' == d))
      && (PartsThrough(net, n) && b in d.buckets && n > MAX_PARTS ==>
           d' == Uploading(d, net.context(0).id, UploadInfo(b, key, net.context(0).contentType), file, n))
  {
    hide ObjectMap.SoundBucket, Handle, PlainKey, IsBucketName, ValidUtf8, IsUploadId, EncodeKey, Stored, PostFrom;
    hide Address, PartFails, ListText, CreateQuery, ActionQuery;
    var id, info, n := net.context(0).id, UploadInfo(b, key, net.context(0).contentType), NumParts(|file|);
    PlainCreate(d, b, key, file, net.context(0));
    if net.create.Delivered? && b in d.buckets {
      assert ObjectMap.SoundBucket(d.buckets[b]);
      var reached := PlainParts(d, file, b, key, id, info, net, 1);
      PlainAbort(d, b, key, id, info, file, reached, net.context(n + 1));
      assert NumbersFrom(1, n) == Numbers(n);
      PlainComplete(d, b, key, info.contentType, id, file, net.context(n + 1));
    }
  }

  /** One part more than fits: nothing is lost, the upload fails all the same, nothing is stored
      and every part stays in its staging directory. */
  lemma OnePartTooMany(d: Disk, file: Str, b: Str, key: Str, net: Network)
    requires ObjectMap.Sound(d) && FreshIds(d, net, 0)
    requires IsBucketName(b) && ValidUtf8(key) && PlainKey(key) && b in d.buckets && EncodeKey(key).Success?
    requires |file| == 165668 * PART_SIZE + 1
    requires PartsThrough(net, NumParts(|file|)) && net.complete.Delivered?
    ensures NumParts(|file|) == 165669
    ensures var (d', status) := Upload(d, file, b, key, net);
      && status.Error? && d'.buckets == d.buckets
      && d' == Uploading(d, net.context(0).id, UploadInfo(b, key, net.context(0).contentType), file, 165669)
  {
    hide ObjectMap.Sound, PlainKey, IsBucketName, ValidUtf8, EncodeKey, Upload, StoredWhole, FreshIds, PartsThrough;
    PlainUpload(d, file, b, key, net);
    var status := Upload(d, file, b, key, net).1;
    assert status.Done? || status.Error?;
  }

  // ---- Other keys ----

  lemma HandleStray(d: Disk, b: Str, key: Str, q: Str, body: seq<Chunk>, c: Context)
    requires IsBucketName(b) && ValidUtf8(key) && !PlainKey(key) && IsPlainQuery(q) && EncodeKey(key).Success?
    ensures Frames.FilesAt(Handle(d, Address(b, key, q), body, c).0, b, EncodeKey(key).value)
         == Frames.FilesAt(d, b, EncodeKey(key).value)
  {
    hide Arrives, ReadParams, ObjectMap.Run, PlainKey, IsBucketName, IsPlainQuery, ValidUtf8, Address, EncodeKey;
    hide Frames.FilesAt, Received, ReadList;
    CarriesExactlyPlainKeys(b, key, q);
    var a := Arrives(Address(b, key, q));
    if a.Some? && ReadParams(a.value.query).Some? {
      var op := OpFor(a.value.bucket, a.value.key, ReadParams(a.value.query).value, body, c);
      if op.Some? {
        Frames.OpKeepsFiles(d, op.value, b, key);
      }
    }
  }

  lemma SendStray(d: Disk, b: Str, key: Str, q: Str, body: seq<Chunk>, c: Context, delivery: Delivery)
    requires IsBucketName(b) && ValidUtf8(key) && !PlainKey(key) && IsPlainQuery(q) && EncodeKey(key).Success?
    requires IsUploadId(c.id)
    ensures var (d', seen) := Send(d, Address(b, key, q), body, c, delivery);
      && Frames.FilesAt(d', b, EncodeKey(key).value) == Frames.FilesAt(d, b, EncodeKey(key).value)
      && (seen.Some? ==> IsUploadId(seen.value))
  {
    hide Handle, PlainKey, IsBucketName, IsPlainQuery, ValidUtf8, Address, EncodeKey, Frames.FilesAt, IsUploadId;
    HandleStray(d, b, key, q, body, c);
    AnswersAreIds(d, Address(b, key, q), body, c);
  }

  lemma AnswersAreIds(d: Disk, address: Str, body: seq<Chunk>, c: Context)
    requires IsUploadId(c.id)
    ensures var answer := Handle(d, address, body, c).1; answer.Some? ==> IsUploadId(answer.value)
  {
    hide Arrives, ReadParams, Received, ReadList, EncodeKey, Assembled, IsUploadId;
    assert IsUploadId([]) by {
      NothingIsId();
    }
  }

  lemma NothingIsId()
    ensures IsUploadId([])
  {
  }

  lemma {:induction false} PartsStray(d: Disk, file: Str, b: Str, key: Str, id: Str, net: Network, n: nat)
    requires IsBucketName(b) && ValidUtf8(key) && !PlainKey(key) && EncodeKey(key).Success?
    requires IsUploadId(id) && n >= 1 && forall i: nat :: IsUploadId(net.context(i).id)
    ensures Frames.FilesAt(PostFrom(d, file, b, key, id, net, n).0, b, EncodeKey(key).value)
         == Frames.FilesAt(d, b, EncodeKey(key).value)
    decreases NumParts(|file|) + 1 - n
  {
    hide Send, PlainKey, IsBucketName, ValidUtf8, EncodeKey, Frames.FilesAt, IsUploadId, IsPlainQuery, Address;
    hide PartQuery;
    if n <= NumParts(|file|) && net.slices(n) {
      PartParams(id, n);
      var q, body := PartQuery(id, n), [Data(Slice(file, n))];
      SendStray(d, b, key, q, body, net.context(n), net.posts(n));
      var (d', _) := Send(d, Address(b, key, q), body, net.context(n), net.posts(n));
      PartsStray(d', file, b, key, id, net, n + 1);
    }
  }

  /** Any other key. The upload never touches body or sidecar of the key it is for, on any disk and
      whatever the network does, although it may well report success. */
  lemma StrayUpload(d: Disk, file: Str, b: Str, key: Str, net: Network)
    requires IsBucketName(b) && ValidUtf8(key) && !PlainKey(key) && EncodeKey(key).Success?
    requires forall i: nat :: IsUploadId(net.context(i).id)
    ensures Frames.FilesAt(Upload(d, file, b, key, net).0, b, EncodeKey(key).value)
         == Frames.FilesAt(d, b, EncodeKey(key).value)
  {
    hide Send, PlainKey, IsBucketName, ValidUtf8, EncodeKey, Frames.FilesAt, IsUploadId, IsPlainQuery, Address;
    hide PostFrom;
    hide CreateQuery, ActionQuery, ReadParams;
    CreateParams();
    SendStray(d, b, key, CreateQuery(), [], net.context(0), net.create);
    var (d1, id) := Send(d, Address(b, key, CreateQuery()), [], net.context(0), net.create);
    if id.Some? {
      PartsStray(d1, file, b, key, id.value, net, 1);
      var (d2, numbers, failed) := PostFrom(d1, file, b, key, id.value, net, 1);
      var c := net.context(NumParts(|file|) + 1);
      ActionParams(id.value, ABORT);
      ActionParams(id.value, COMPLETE);
      SendStray(d2, b, key, ActionQuery(id.value, ABORT), [], c, net.abort);
      SendStray(d2, b, key, ActionQuery(id.value, COMPLETE), [Data(ListText(numbers))], c, net.complete);
    }
  }

  lemma StoredBody(d: Disk, d': Disk, b: Str, key: Str, net: Network, file: Str)
    requires StoredWhole(d, d', b, key, net, file)
    ensures Frames.FilesAt(d', b, EncodeKey(key).value).body == Some(file)
  {
    hide EncodeKey, ObjectMap.SoundBucket, SidecarName;
  }

  lemma SameBuckets(d: Disk, d': Disk, b: Str, name: Str)
    requires d'.buckets == d.buckets
    ensures Frames.FilesAt(d', b, name) == Frames.FilesAt(d, b, name)
  {
    hide SidecarName;
  }

  /** With nothing lost, an existing bucket and a key that can be encoded and does not hold the
      file yet, the key ends holding the file exactly when it is plain and the file has at most
      165668 parts. Otherwise its body and sidecar are as before. */
  lemma StoredExactlyWhen(d: Disk, file: Str, b: Str, key: Str, net: Network)
    requires ObjectMap.Sound(d) && FreshIds(d, net, 0)
    requires IsBucketName(b) && ValidUtf8(key) && b in d.buckets && EncodeKey(key).Success?
    requires PartsThrough(net, NumParts(|file|)) && net.complete.Delivered?
    requires Frames.FilesAt(d, b, EncodeKey(key).value).body != Some(file)
    ensures var name, d' := EncodeKey(key).value, Upload(d, file, b, key, net).0;
      && (Frames.FilesAt(d', b, name).body == Some(file) <==> PlainKey(key) && NumParts(|file|) <= MAX_PARTS)
      && (Frames.FilesAt(d', b, name).body != Some(file) ==> Frames.FilesAt(d', b, name) == Frames.FilesAt(d, b, name))
  {
    hide ObjectMap.Sound, PlainKey, IsBucketName, ValidUtf8, EncodeKey, Upload, StoredWhole, PartsThrough;
    hide Frames.FilesAt;
    hide IsUploadId;
    var name, d' := EncodeKey(key).value, Upload(d, file, b, key, net).0;
    if PlainKey(key) {
      PlainUpload(d, file, b, key, net);
      if NumParts(|file|) <= MAX_PARTS {
        StoredBody(d, d', b, key, net, file);
      } else {
        SameBuckets(d, d', b, name);
      }
    } else {
      StrayUpload(d, file, b, key, net);
    }
  }

  lemma UploadMeaning(d: Disk, file: Str, b: Str, key: Str, net: Network)
    requires ObjectMap.Sound(d) && FreshIds(d, net, 0)
    ensures var (d', status) := Upload(d, file, b, key, net);
      && (IsBucketName(b) && ValidUtf8(key) && PlainKey(key) ==>
           && (d'.buckets == d.buckets || StoredWhole(d, d', b, key, net, file))
           && (status.Done? ==> StoredWhole(d, d', b, key, net, file)))
      && (IsBucketName(b) && ValidUtf8(key) && !PlainKey(key) && EncodeKey(key).Success? ==>
           Frames.FilesAt(d', b, EncodeKey(key).value) == Frames.FilesAt(d, b, EncodeKey(key).value))
  {
    hide ObjectMap.Sound, PlainKey, IsBucketName, ValidUtf8, EncodeKey, Upload, StoredWhole, Frames.FilesAt, IsUploadId;
    if IsBucketName(b) && ValidUtf8(key) {
      if PlainKey(key) {
        PlainUpload(d, file, b, key, net);
      } else if EncodeKey(key).Success? {
        StrayUpload(d, file, b, key, net);
      }
    }
  }

  /** `upload_multipart`, request by request. For a plain key the stored objects end as they were
      or the key holds exactly the file, and success is reported only then; the files of any other
      key are as before. */
  method UploadMultipart(storage: FsStorage, file: Str, b: Str, key: Str, net: Network, tmp: Str)
    returns (status: UploadStatus)
    requires ObjectMap.Sound(storage.disk) && FreshIds(storage.disk, net, 0) && IsTempName(tmp)
    modifies storage
    ensures (storage.disk, status) == Upload(old(storage.disk), file, b, key, net)
    ensures IsBucketName(b) && ValidUtf8(key) && PlainKey(key) ==>
      && (storage.disk.buckets == old(storage.disk).buckets
          || StoredWhole(old(storage.disk), storage.disk, b, key, net, file))
      && (status.Done? ==> StoredWhole(old(storage.disk), storage.disk, b, key, net, file))
    ensures IsBucketName(b) && ValidUtf8(key) && !PlainKey(key) && EncodeKey(key).Success? ==>
      var name := EncodeKey(key).value;
      Frames.FilesAt(storage.disk, b, name) == Frames.FilesAt(old(storage.disk), b, name)
  {
    hide ObjectMap.Sound, AtRest, Send, FreshIds, PostFrom, IsTempName, IsBucketName, ValidUtf8, PlainKey, EncodeKey;
    hide StoredWhole, Frames.FilesAt, IsUploadId;
    UploadMeaning(storage.disk, file, b, key, net);
    SoundAtRest(storage.disk, tmp);
    var id := SendRequest(storage, Address(b, key, CreateQuery()), [], net, 0, net.create, tmp);
    if id.None? {
      return Error;
    }
    var partNumbers, failed := PostParts(storage, file, b, key, id.value, net, tmp);
    if failed {
      var _ := SendRequest(
        storage, Address(b, key, ActionQuery(id.value, ABORT)), [], net, NumParts(|file|) + 1, net.abort, tmp);
      return Error;
    }
    var completed := SendRequest(
      storage, Address(b, key, ActionQuery(id.value, COMPLETE)), [Data(ListText(partNumbers))],
      net, NumParts(|file|) + 1, net.complete, tmp);
    return if completed.Some? then Done else Error;
  }

  // ---- What a client reads afterwards ----

  /** When a plain upload reports success, head and get answer the whole file under metadata that
      tells of it: its key, size and digest with the number of parts, the type its first request
      resolved to and the time of its last. */
  lemma UploadedReads(d: Disk, file: Str, b: Str, key: Str, net: Network)
    requires ObjectMap.Sound(d) && FreshIds(d, net, 0)
    requires IsBucketName(b) && ValidUtf8(key) && PlainKey(key) && Upload(d, file, b, key, net).1.Done?
    ensures var d' := Upload(d, file, b, key, net).0;
      var r := GetObject(d', b, key, None);
      && HeadObject(d', b, key).Success? && r == Success((HeadObject(d', b, key).value, file))
      && Laws.SaysParts(r.value.0, key, file, NumParts(|file|), net.context(0).contentType,
                        net.context(NumParts(|file|) + 1).now)
  {
    hide ObjectMap.Sound, PlainKey, IsBucketName, ValidUtf8, EncodeKey, Upload, FreshIds, ObjectMap.SoundBucket, TypeOr;
    PlainUpload(d, file, b, key, net);
    Laws.TypeIsFor(net.context(0).contentType);
  }

  /** A request for no step of a multipart upload stores its body, under the type it resolved to. */
  lemma PlainPostStores(d: Disk, address: Str, body: seq<Chunk>, c: Context, a: Arrival, p: Params)
    requires ObjectMap.Sound(d) && Arrives(address) == Some(a) && ReadParams(a.query) == Some(p)
    requires p.action != Some(CREATE) && p.action != Some(COMPLETE) && p.action != Some(ABORT)
    requires p.uploadId.None? || p.partNumber.None?
    requires Laws.GoodKey(a.key) && a.bucket in d.buckets && Received(body).Some?
    ensures var (d', answer) := Handle(d, address, body, c);
      var r := GetObject(d', a.bucket, a.key, None);
      && answer == Some([]) && r.Success? && r.value.1 == Received(body).value
      && Laws.Says(r.value.0, a.key, Received(body).value, c.contentType, c.now)
  {
    hide Arrives, ReadParams, Received, EncodeKey, ObjectMap.Sound, TypeOr, Laws.GoodKey, DiskOps.GetObject;
    Laws.PutStores(d, a.bucket, a.key, body, c.contentType, c.now);
  }

  // ---- A `#` in the key ----

  /** The address of `k#rest` is that of `k`, without a query. */
  lemma HashArrives(b: Str, k: Str, rest: Str, q: Str)
    requires IsBucketName(b) && IsPlainQuery(q) && PlainKey(k) && ValidUtf8(k)
    ensures Arrives(Address(b, k + [HASH] + rest, q)) == Some(Arrival(b, k, None))
  {
    hide Split, Clean, PathText, Resolve, Route, Address, ValidUtf8, PlainKey, IsPlainQuery, Escape, UpToHash;
    var key, tail := k + [HASH] + rest, [QUESTION] + q;
    PlainKeyArrives(b, k, q);
    AddressSegments(b, k, q);
    AddressSegments(b, key, q);
    HashEndsPath(k, rest);
    CleanAddress(b, key, q);
    PathOfAddress(b, key, q);
    PlainIsWhole(k);
    var s, front := Clean(Address(b, key, q)), Front(b) + k;
    var after := [HASH] + Clean(rest) + tail;
    assert s == front + after;
    assert s[|front|..] == after;
    assert Arrives(Address(b, key, q)) == Route(Resolve(Split(PathKey(k)), [UI, UPLOAD, b]), None);
    RouteQuery(Resolve(Split(PathKey(k)), [UI, UPLOAD, b]), QueryText(Clean(Address(b, k, q))));
  }

  lemma PlainIsWhole(k: Str)
    requires PlainKey(k)
    ensures PathKey(k) == k && Clean(k) == k
  {
    WholePathKey(k);
    CleanStays(k);
  }

  lemma HashEndsPath(k: Str, rest: Str)
    requires PlainKey(k)
    ensures Clean(k + [HASH] + rest) == k + ([HASH] + Clean(rest)) && PathKey(k + [HASH] + rest) == k
  {
    PlainIsWhole(k);
    CleanConcat(k, [HASH] + rest);
    CleanConcat([HASH], rest);
    CleanStays([HASH]);
    assert k + [HASH] + rest == k + ([HASH] + rest);
    PathBeforeMark(k, [HASH] + Clean(rest));
  }

  lemma RouteQuery(segments: seq<Str>, query: Option<Str>)
    ensures Route(segments, None) ==
      if Route(segments, query).Some? then Some(Route(segments, query).value.(query := None)) else None
  {
    hide PercentDecode, ValidUtf8, Join;
  }

  /** A request to such an address stores its body under `k`. */
  lemma HandleHash(d: Disk, b: Str, k: Str, rest: Str, q: Str, body: Str, chunks: seq<Chunk>, c: Context)
    requires IsBucketName(b) && IsPlainQuery(q) && PlainKey(k) && ValidUtf8(k) && EncodeKey(k).Success?
    requires HasDirectories(d, b) && Received(chunks) == Some(body)
    ensures var (d', answer) := Handle(d, Address(b, k + [HASH] + rest, q), chunks, c);
      answer == Some([]) && HasDirectories(d', b) && HoldsText(d', b, k, body)
  {
    hide Arrives, Received, PlainKey, IsBucketName, ValidUtf8, IsPlainQuery, EncodeKey, Address;
    HashArrives(b, k, rest, q);
    assert k != [] by {
      PlainNotEmpty(k);
    }
    EncodedNames(k, k);
  }

  predicate HasDirectories(d: Disk, b: Str) {
    b in d.buckets && d.buckets[b].objects.Some? && d.buckets[b].meta.Some?
  }

  /** The key holds this body, with a sidecar of its size and digest. */
  predicate HoldsText(d: Disk, b: Str, k: Str, body: Str) {
    EncodeKey(k).Success? && var files := Frames.FilesAt(d, b, EncodeKey(k).value);
      && files.body == Some(body)
      && files.sidecar.Some? && files.sidecar.value.Json?
      && files.sidecar.value.meta.key == k && ObjectMap.Describes(files.sidecar.value.meta, body)
  }

  lemma {:induction false} PartsHash(d: Disk, file: Str, b: Str, k: Str, rest: Str, net: Network, n: nat)
    requires IsBucketName(b) && PlainKey(k) && ValidUtf8(k) && EncodeKey(k).Success? && HasDirectories(d, b)
    requires 1 <= n <= NumParts(|file|) + 1 && forall i: nat :: n <= i <= NumParts(|file|) ==> PartOk(net, i)
    ensures var (d', numbers, failed) := PostFrom(d, file, b, k + [HASH] + rest, [], net, n);
      HasDirectories(d', b) && !failed && numbers == NumbersFrom(n, NumParts(|file|))
    decreases NumParts(|file|) + 1 - n
  {
    hide Handle, PlainKey, IsBucketName, ValidUtf8, EncodeKey, IsPlainQuery, Address, PartQuery, HasDirectories;
    hide HoldsText;
    if n <= NumParts(|file|) {
      PartParams([], n);
      ReceivedWhole(Slice(file, n));
      var address := Address(b, k + [HASH] + rest, PartQuery([], n));
      HandleHash(d, b, k, rest, PartQuery([], n), Slice(file, n), [Data(Slice(file, n))], net.context(n));
      assert PartOk(net, n);
      PartsHash(Handle(d, address, [Data(Slice(file, n))], net.context(n)).0, file, b, k, rest, net, n + 1);
      assert [n] + NumbersFrom(n + 1, NumParts(|file|)) == NumbersFrom(n, NumParts(|file|));
    }
  }

  /** A key with a `#` after a plain key `k`, and nothing lost: success is reported, and `k` ends
      holding the text of the part list instead of whatever it held before. */
  lemma HashUpload(d: Disk, file: Str, b: Str, k: Str, rest: Str, net: Network)
    requires IsBucketName(b) && PlainKey(k) && ValidUtf8(k) && EncodeKey(k).Success? && HasDirectories(d, b)
    requires PartsThrough(net, NumParts(|file|)) && net.complete.Delivered?
    ensures var (d', status) := Upload(d, file, b, k + [HASH] + rest, net);
      status.Done? && HoldsText(d', b, k, ListText(Numbers(NumParts(|file|))))
  {
    hide Handle, PlainKey, IsBucketName, ValidUtf8, EncodeKey, IsPlainQuery, Address, HasDirectories, HoldsText;
    hide PostFrom, ListText, CreateQuery, ActionQuery, ReadParams;
    var key, n := k + [HASH] + rest, NumParts(|file|);
    CreateParams();
    assert Received([]) == Some([]);
    HandleHash(d, b, k, rest, CreateQuery(), [], [], net.context(0));
    var (d1, _) := Handle(d, Address(b, key, CreateQuery()), [], net.context(0));
    forall i: nat | 1 <= i <= n ensures PartOk(net, i) {
      assert !PartFails(net, 1, n);
    }
    PartsHash(d1, file, b, k, rest, net, 1);
    var (d2, numbers, _) := PostFrom(d1, file, b, key, [], net, 1);
    assert NumbersFrom(1, n) == Numbers(n);
    NothingIsId();
    ActionParams([], COMPLETE);
    ReceivedWhole(ListText(numbers));
    HandleHash(d2, b, k, rest, ActionQuery([], COMPLETE), ListText(numbers), [Data(ListText(numbers))],
               net.context(n + 1));
  }

  /** The shortest such key, `a#b`: `a` is overwritten, `a#b` is not stored, Done is reported. */
  lemma HashExample(d: Disk, file: Str, b: Str, net: Network)
    requires IsBucketName(b) && HasDirectories(d, b) && forall i: nat :: IsUploadId(net.context(i).id)
    requires PartsThrough(net, NumParts(|file|)) && net.complete.Delivered?
    ensures var (d', status) := Upload(d, file, b, [97, HASH, 98], net);
      && status.Done?
      && HoldsText(d', b, [97], ListText(Numbers(NumParts(|file|))))
      && EncodeKey([97, HASH, 98]).Success?
      && var name := EncodeKey([97, HASH, 98]).value; Frames.FilesAt(d', b, name) == Frames.FilesAt(d, b, name)
  {
    hide Upload, IsBucketName, HasDirectories, PartsThrough, HoldsText, ListText, IsUploadId, Frames.FilesAt;
    PlainA();
    assert [97] + [HASH] + [98] == [97, HASH, 98];
    HashUpload(d, file, b, [97], [98], net);
    StrayUpload(d, file, b, [97, HASH, 98], net);
  }

  lemma PlainA()
    ensures PlainKey([97]) && ValidUtf8([97]) && EncodeKey([97]).Success?
    ensures !PlainKey([97, HASH, 98]) && ValidUtf8([97, HASH, 98]) && EncodeKey([97, HASH, 98]).Success?
  {
    hide EncodeKey, ValidUtf8;
    AsciiIsUtf8([97]);
    AsciiIsUtf8([97, HASH, 98]);
    ShortKeyEncodes([97]);
    ShortKeyEncodes([97, HASH, 98]);
    assert [97][1..] == [];
    assert Split([97]) == [[97]] by {
      assert Split([]) == [[]];
      assert [97] + Split([])[0] == [97] && Split([])[1..] == [];
    }
    assert !IsDots([97]);
    assert HASH in [97, HASH, 98];
  }

  lemma {:induction false} EncodedLength(k: Str)
    ensures |PercentEncode(k)| <= 3 * |k|
  {
    if k != [] {
      EncodedLength(k[1..]);
    }
  }

  lemma ShortKeyEncodes(k: Str)
    requires |k| <= 85 && DOT !in k && SLASH !in k && 0 !in k
    ensures EncodeKey(k).Success?
  {
    hide PercentEncode, IsTraversalUnsafe;
    EncodedLength(k);
    SafeWithoutDots(k);
  }

  lemma SafeWithoutDots(k: Str)
    requires DOT !in k && SLASH !in k && 0 !in k
    ensures !IsTraversalUnsafe(k)
  {
    hide Find;
    FoundHead(k, [0]);
    FoundHead(k, [SLASH, DOT, DOT, SLASH]);
    assert k != [] ==> k[0] in k;
    assert |k| >= 3 ==> k[|k| - 3..][0] == k[|k| - 3];
  }

  /** The same under interference: whatever other requests ran in between, as long as nobody
      else ended the upload and the latest body of every part is its slice of the file, the
      completed object is the file. */
  lemma FileSurvivesOthers(d: Disk, ops: seq<ObjectMap.Op>, key: Str, id: Str, file: Str, now: int)
    requires id in d.uploads && d.uploads[id].info.Some? && d.uploads[id].parts == map[] && LeavesOpen(ops, id)
    requires var d1 := ObjectMap.RunAll(d, ops).0;
      ObjectMap.Sound(d1) && d.uploads[id].info.value.bucket in d1.buckets
    requires ValidUtf8(key) && EncodeKey(key).Success? && key != []
    requires forall k: int :: 1 <= k <= NumParts(|file|) ==> LatestPart(ops, id, k) == Some(Slice(file, k))
    ensures var (d2, r) := CompleteUpload(ObjectMap.RunAll(d, ops).0, key, id, Numbers(NumParts(|file|)), now);
      && ObjectMap.Sound(d2)
      && r.Success? && r.value.size == |file| && r.value.etag == Md5Parts(file, NumParts(|file|))
      && ObjectMap.EntryAt(ObjectMap.View(d2), d.uploads[id].info.value.bucket, key)
           == Some(ObjectMap.Entry(file, r.value))
  {
    hide EncodeKey, DecodeKey, ObjectMap.Sound, ObjectMap.View, ObjectMap.RunAll, Assembled, LatestPart, CompleteUpload;
    var numbers := Numbers(NumParts(|file|));
    assert forall n :: n in numbers ==> 1 <= n <= NumParts(|file|);
    CompleteAfterHistory(d, ops, key, id, numbers, now);
    var parts := LatestParts(ops, id, numbers);
    forall k: int | 1 <= k <= NumParts(|file|) ensures k in parts && parts[k] == Slice(file, k) {
      assert numbers[k - 1] == k;
    }
    SlicesAssemble(file, parts);
  }
}
