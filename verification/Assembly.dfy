/** Server side of multipart uploads, over histories: crates/storage/src/fs.rs:543-719. */
module Assembly {
  import opened Wrappers
  import opened Bytes
  import opened KeyEncoding
  import opened Meta
  import opened Sorting
  import opened DiskOps
  import opened ObjectMap

  // ---- Which parts an upload holds ----

  /** The body that an operation leaves under a part number of the upload. */
  function PartOf(op: Op, id: Str, number: int): Option<Str> {
    if op.UploadPart? && op.id == id && op.number == number && number > 0 then Received(op.chunks) else None
  }

  /** The latest body uploaded under a part number: re-uploads replace, failed ones do not. */
  function LatestPart(ops: seq<Op>, id: Str, number: int): Option<Str>
    decreases |ops|
  {
    if ops == [] then None
    else
      var later := LatestPart(ops[1..], id, number);
      if later.Some? then later else PartOf(ops[0], id, number)
  }

  function LatestParts(ops: seq<Op>, id: Str, numbers: seq<int>): map<int, Str>
    requires forall n :: n in numbers ==> LatestPart(ops, id, n).Some?
  {
    map n | n in numbers :: LatestPart(ops, id, n).value
  }

  /** Operations that neither start, complete nor abort the upload; anything else may go on. */
  predicate LeavesOpen(ops: seq<Op>, id: Str) {
    forall op :: op in ops ==> !((op.CreateUpload? || op.Complete? || op.Abort?) && op.id == id)
  }

  lemma OneOperation(d: Disk, op: Op, id: Str)
    requires id in d.uploads && LeavesOpen([op], id)
    ensures var d' := Run(d, op).0;
      && id in d'.uploads && d'.uploads[id].info == d.uploads[id].info
      && (forall n :: n in d'.uploads[id].parts <==> PartOf(op, id, n).Some? || n in d.uploads[id].parts)
      && (forall n :: n in d'.uploads[id].parts ==>
           d'.uploads[id].parts[n] ==
             if PartOf(op, id, n).Some? then PartOf(op, id, n).value else d.uploads[id].parts[n])
  {
    hide EncodeKey, DecodeKey, Received, Assembled;
    assert op in [op];
  }

  /** After any history, in any order and with re-uploads, the upload holds the latest body of
      every part number posted, on top of the parts it held before. */
  lemma {:induction false} PartsAreLatest(d: Disk, ops: seq<Op>, id: Str, n: int)
    requires id in d.uploads && LeavesOpen(ops, id)
    ensures var d' := RunAll(d, ops).0;
      && id in d'.uploads && d'.uploads[id].info == d.uploads[id].info
      && (n in d'.uploads[id].parts <==> LatestPart(ops, id, n).Some? || n in d.uploads[id].parts)
      && (LatestPart(ops, id, n).Some? ==> d'.uploads[id].parts[n] == LatestPart(ops, id, n).value)
      && (LatestPart(ops, id, n).None? && n in d.uploads[id].parts ==>
           d'.uploads[id].parts[n] == d.uploads[id].parts[n])
    decreases |ops|
  {
    hide Run;
    if ops != [] {
      assert ops[0] in ops;
      OneOperation(d, ops[0], id);
      PartsAreLatest(Run(d, ops[0]).0, ops[1..], id, n);
    }
  }

  // ---- What assembling them yields ----

  predicate AllHeld(parts: map<int, Str>, numbers: seq<int>) {
    forall n :: n in numbers ==> n in parts
  }

  ghost predicate Ascending(numbers: seq<int>) {
    SortedBy(NumberLeq, numbers)
  }

  function TotalSize(parts: map<int, Str>, numbers: seq<int>): nat
    requires AllHeld(parts, numbers)
  {
    if numbers == [] then 0
    else
      var n := numbers[0];
      assert n in numbers;
      |parts[n]| + TotalSize(parts, numbers[1..])
  }

  lemma NumbersTotalOrder()
    ensures TotalOrder(NumberLeq)
  {
  }

  lemma {:induction false} PartBytesHeld(parts: map<int, Str>, numbers: seq<int>)
    ensures PartBytes(parts, numbers).Some? <==> AllHeld(parts, numbers)
  {
    if numbers != [] {
      var n := |numbers| - 1;
      PartBytesHeld(parts, numbers[..n]);
      assert numbers == numbers[..n] + [numbers[n]];
      assert forall k :: k in numbers <==> k in numbers[..n] || k == numbers[n];
    }
  }

  lemma {:induction false} TotalSizeSnoc(parts: map<int, Str>, numbers: seq<int>, n: int)
    requires AllHeld(parts, numbers + [n])
    ensures AllHeld(parts, numbers) && n in parts
    ensures TotalSize(parts, numbers + [n]) == TotalSize(parts, numbers) + |parts[n]|
  {
    assert forall k :: k in numbers ==> k in numbers + [n];
    assert n in numbers + [n];
    if numbers != [] {
      assert (numbers + [n])[1..] == numbers[1..] + [n];
      TotalSizeSnoc(parts, numbers[1..], n);
    } else {
      assert ([n])[1..] == [];
    }
  }

  lemma {:induction false} PartBytesSize(parts: map<int, Str>, numbers: seq<int>)
    requires AllHeld(parts, numbers)
    ensures PartBytes(parts, numbers).Some? && |PartBytes(parts, numbers).value| == TotalSize(parts, numbers)
  {
    if numbers != [] {
      var n := |numbers| - 1;
      assert numbers == numbers[..n] + [numbers[n]];
      TotalSizeSnoc(parts, numbers[..n], numbers[n]);
      PartBytesSize(parts, numbers[..n]);
    }
  }

  lemma {:induction false} TotalSizeInsert(parts: map<int, Str>, x: int, s: seq<int>)
    requires AllHeld(parts, s) && x in parts
    ensures AllHeld(parts, Insert(NumberLeq, x, s))
    ensures TotalSize(parts, Insert(NumberLeq, x, s)) == |parts[x]| + TotalSize(parts, s)
  {
    SameElements(Insert(NumberLeq, x, s), [x] + s);
    if s == [] || NumberLeq(x, s[0]) {
      assert ([x] + s)[1..] == s;
    } else {
      TotalSizeInsert(parts, x, s[1..]);
      assert Insert(NumberLeq, x, s)[1..] == Insert(NumberLeq, x, s[1..]);
    }
  }

  lemma {:induction false} TotalSizeSort(parts: map<int, Str>, s: seq<int>)
    requires AllHeld(parts, s)
    ensures AllHeld(parts, Sort(NumberLeq, s)) && TotalSize(parts, Sort(NumberLeq, s)) == TotalSize(parts, s)
  {
    SameElements(Sort(NumberLeq, s), s);
    if s != [] {
      TotalSizeSort(parts, s[1..]);
      assert s[0] in s;
      TotalSizeInsert(parts, s[0], Sort(NumberLeq, s[1..]));
    }
  }

  /** Assembly succeeds exactly when every listed part is held. Then it is the parts joined
      along any ascending arrangement of the list, so the order of the list does not matter;
      its size is the sum of the part sizes; and a number listed twice counts twice. */
  lemma AssembledMeaning(parts: map<int, Str>, numbers: seq<int>, other: seq<int>)
    requires multiset(other) == multiset(numbers)
    ensures Assembled(parts, numbers).Some? <==> AllHeld(parts, numbers)
    ensures Assembled(parts, numbers) == Assembled(parts, other)
    ensures Ascending(other) ==> Assembled(parts, numbers) == PartBytes(parts, other)
    ensures AllHeld(parts, numbers) ==> |Assembled(parts, numbers).value| == TotalSize(parts, numbers)
  {
    NumbersTotalOrder();
    SortCanonical(NumberLeq, other, numbers);
    SameElements(Sort(NumberLeq, numbers), numbers);
    PartBytesHeld(parts, Sort(NumberLeq, numbers));
    if AllHeld(parts, numbers) {
      TotalSizeSort(parts, numbers);
      PartBytesSize(parts, Sort(NumberLeq, numbers));
    }
  }

  // ---- Completing an upload after a history ----

  /** An upload with no part yet, then any history, then a completion with list `numbers`.
      If every listed number was uploaded, the object is the listed parts' latest bodies in
      ascending order; if one was not, the call fails and changes nothing. */
  lemma CompleteAfterHistory(d: Disk, ops: seq<Op>, key: Str, id: Str, numbers: seq<int>, now: int)
    requires id in d.uploads && d.uploads[id].info.Some? && d.uploads[id].parts == map[] && LeavesOpen(ops, id)
    requires var d1 := RunAll(d, ops).0; Sound(d1) && d.uploads[id].info.value.bucket in d1.buckets
    requires ValidUtf8(key) && EncodeKey(key).Success? && key != []
    ensures var d1 := RunAll(d, ops).0;
      var (d2, r) := CompleteUpload(d1, key, id, numbers, now);
      var info := d.uploads[id].info.value;
      if forall n :: n in numbers ==> LatestPart(ops, id, n).Some? then
        var parts := LatestParts(ops, id, numbers);
        && Assembled(parts, numbers).Some?
        && var body := Assembled(parts, numbers).value;
        && r == Success(ObjectMeta(info.key, |body|, TypeOr(info.contentType), Md5Parts(body, |numbers|), now))
        && |body| == TotalSize(parts, numbers)
        && Sound(d2)
        && info.bucket in View(d1).buckets
        && View(d2) == SetEntry(View(d1), info.bucket, key, Entry(body, r.value)).(uploads := View(d1).uploads - {id})
      else
        r == Failure(Io) && d2 == d1
  {
    hide EncodeKey, DecodeKey, Sound, View, Received, RunAll, Assembled, CompleteUpload;
    var d1 := RunAll(d, ops).0;
    HeldAfter(d, ops, id);
    var held := d1.uploads[id].parts;
    AssembledMeaning(held, numbers, numbers);
    if forall n :: n in numbers ==> LatestPart(ops, id, n).Some? {
      var parts := LatestParts(ops, id, numbers);
      assert AllHeld(parts, numbers);
      AssembledMeaning(parts, numbers, numbers);
      AssembledLocal(held, parts, numbers);
      CompleteStores(d1, key, id, numbers, now);
      TotalSizeSame(held, parts, numbers);
    } else {
      var n :| n in numbers && LatestPart(ops, id, n).None?;
      assert n !in held;
      CompleteRejects(d1, key, id, numbers, now);
    }
  }

  lemma HeldAfter(d: Disk, ops: seq<Op>, id: Str)
    requires id in d.uploads && d.uploads[id].parts == map[] && LeavesOpen(ops, id)
    ensures var d1 := RunAll(d, ops).0;
      && id in d1.uploads && d1.uploads[id].info == d.uploads[id].info
      && (forall n :: n in d1.uploads[id].parts <==> LatestPart(ops, id, n).Some?)
      && (forall n :: n in d1.uploads[id].parts ==> d1.uploads[id].parts[n] == LatestPart(ops, id, n).value)
  {
    hide RunAll, LatestPart;
    PartsAreLatest(d, ops, id, 0);
    forall n {
      PartsAreLatest(d, ops, id, n);
    }
  }

  lemma {:induction false} TotalSizeSame(held: map<int, Str>, parts: map<int, Str>, numbers: seq<int>)
    requires forall n :: n in numbers ==> n in held && n in parts && held[n] == parts[n]
    ensures TotalSize(held, numbers) == TotalSize(parts, numbers)
  {
    if numbers != [] {
      assert numbers[0] in numbers;
      TotalSizeSame(held, parts, numbers[1..]);
    }
  }

  /** A completion fails with everything as it was exactly when a listed part is missing. */
  lemma CompleteRejects(d: Disk, key: Str, id: Str, numbers: seq<int>, now: int)
    requires Sound(d) && EncodeKey(key).Success? && key != []
    requires id in d.uploads && d.uploads[id].info.Some? && d.uploads[id].info.value.bucket in d.buckets
    ensures CompleteUpload(d, key, id, numbers, now) == (d, Failure(Io)) <==>
      exists n :: n in numbers && n !in d.uploads[id].parts
    ensures CompleteUpload(d, key, id, numbers, now).1.Failure? ==>
      CompleteUpload(d, key, id, numbers, now) == (d, Failure(Io))
  {
    hide EncodeKey, DecodeKey, Assembled;
    assert SoundBucket(d.buckets[d.uploads[id].info.value.bucket]);
    AssembledMeaning(d.uploads[id].parts, numbers, numbers);
    EmptyNameIffEmptyKey(key);
  }

  lemma CompleteStores(d: Disk, key: Str, id: Str, numbers: seq<int>, now: int)
    requires Sound(d) && ValidUtf8(key) && EncodeKey(key).Success? && key != []
    requires id in d.uploads && d.uploads[id].info.Some? && d.uploads[id].info.value.bucket in d.buckets
    requires Assembled(d.uploads[id].parts, numbers).Some?
    ensures var info, body := d.uploads[id].info.value, Assembled(d.uploads[id].parts, numbers).value;
      var m := ObjectMeta(info.key, |body|, TypeOr(info.contentType), Md5Parts(body, |numbers|), now);
      var (d', r) := CompleteUpload(d, key, id, numbers, now);
      && r == Success(m) && Sound(d')
      && info.bucket in View(d).buckets
      && View(d') == SetEntry(View(d), info.bucket, key, Entry(body, m)).(uploads := View(d).uploads - {id})
  {
    hide EncodeKey, DecodeKey, Assembled, SoundBucket;
    CompleteRefines(d, key, id, numbers, now);
  }

  lemma {:induction false} PartBytesLocal(held: map<int, Str>, parts: map<int, Str>, numbers: seq<int>)
    requires forall n :: n in numbers ==> n in held && n in parts && held[n] == parts[n]
    ensures PartBytes(held, numbers) == PartBytes(parts, numbers)
  {
    if numbers != [] {
      var n := |numbers| - 1;
      assert numbers == numbers[..n] + [numbers[n]];
      assert forall k :: k in numbers[..n] ==> k in numbers;
      var last := numbers[n];
      assert last in numbers;
      PartBytesLocal(held, parts, numbers[..n]);
    }
  }

  lemma AssembledLocal(held: map<int, Str>, parts: map<int, Str>, numbers: seq<int>)
    requires forall n :: n in numbers ==> n in held && n in parts && held[n] == parts[n]
    ensures Assembled(held, numbers) == Assembled(parts, numbers)
  {
    SameElements(Sort(NumberLeq, numbers), numbers);
    PartBytesLocal(held, parts, Sort(NumberLeq, numbers));
  }
}
