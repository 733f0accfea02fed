/** The upload handler: crates/server/src/ui/upload.rs:87-202. A request is its address and the
    stream of its body. */
module UploadHandler {
  import opened Wrappers
  import opened Bytes
  import opened KeyEncoding
  import opened Meta
  import opened DiskOps
  import opened Decimals
  import opened UploadUrl
  import opened FsStorage
  import PartList
  import ObjectMap

  const AMPERSAND: Byte := 38
  const EQUALS: Byte := 61
  const PLUS: Byte := 43

  const UPLOAD_ID: Str := [117, 112, 108, 111, 97, 100, 73, 100]
  const PART_NUMBER: Str := [112, 97, 114, 116, 78, 117, 109, 98, 101, 114]
  const ACTION: Str := [97, 99, 116, 105, 111, 110]
  const CREATE: Str := [99, 114, 101, 97, 116, 101]
  const COMPLETE: Str := [99, 111, 109, 112, 108, 101, 116, 101]
  const ABORT: Str := [97, 98, 111, 114, 116]

  // ---- The query ----

  datatype Params = Params(uploadId: Option<Str>, partNumber: Option<int>, action: Option<Str>)

  const NO_PARAMS := Params(None, None, None)

  /** Up to the first `c`, and what follows it, if there is one. */
  function Cut(s: Str, c: Byte): (r: (Str, Option<Str>))
    ensures r.1.Some? ==> |r.1.value| < |s|
  {
    if s == [] then ([], None)
    else if s[0] == c then ([], Some(s[1..]))
    else
      var (a, rest) := Cut(s[1..], c);
      ([s[0]] + a, rest)
  }

  function PlusToSpace(s: Str): Str {
    if s == [] then [] else [if s[0] == PLUS then 32 else s[0]] + PlusToSpace(s[1..])
  }

  /** `application/x-www-form-urlencoded` text. */
  function FormDecode(s: Str): Str {
    PercentDecode(PlusToSpace(s))
  }

  /** One `name=value`: a name given twice and a part number that is none are errors, unknown
      names are ignored. */
  function AddField(p: Params, field: Str): Option<Params> {
    var (n, v) := Cut(field, EQUALS);
    var name, value := FormDecode(n), FormDecode(if v.Some? then v.value else []);
    if field == [] then Some(p)
    else if name == UPLOAD_ID then (if p.uploadId.Some? then None else Some(p.(uploadId := Some(value))))
    else if name == ACTION then (if p.action.Some? then None else Some(p.(action := Some(value))))
    else if name == PART_NUMBER then
      if p.partNumber.Some? || ParseI32(value).None? then None else Some(p.(partNumber := ParseI32(value)))
    else Some(p)
  }

  function AddFields(p: Params, query: Str): Option<Params>
    decreases |query|
  {
    var (field, rest) := Cut(query, AMPERSAND);
    var p' := AddField(p, field);
    if p'.None? || rest.None? then p' else AddFields(p'.value, rest.value)
  }

  function ReadParams(query: Option<Str>): Option<Params> {
    if query.None? then Some(NO_PARAMS) else AddFields(NO_PARAMS, query.value)
  }

  // ---- Dispatch ----

  /** What the surroundings add to a request: the content type that its headers and the key's
      extension give, the id drawn if it starts an upload, and the time. */
  datatype Context = Context(contentType: Option<Str>, id: Str, now: int)

  /** The storage operation a request leads to, if it is not refused before. */
  function OpFor(b: Str, key: Str, p: Params, body: seq<Chunk>, c: Context): Option<ObjectMap.Op> {
    if p.action == Some(CREATE) then Some(ObjectMap.CreateUpload(b, key, c.contentType, c.id))
    else if p.action == Some(COMPLETE) then
      if p.uploadId.None? || Received(body).None? || |Received(body).value| > PartList.LIST_LIMIT then None
      else
        var numbers := PartList.ReadList(Received(body).value);
        if numbers.None? then None else Some(ObjectMap.Complete(key, p.uploadId.value, numbers.value, c.now))
    else if p.action == Some(ABORT) then
      if p.uploadId.None? then None else Some(ObjectMap.Abort(p.uploadId.value))
    else if p.uploadId.Some? && p.partNumber.Some? then
      Some(ObjectMap.UploadPart(p.uploadId.value, p.partNumber.value, body))
    else Some(ObjectMap.Put(b, key, body, c.contentType, c.now))
  }

  /** What the browser gets to see: the text of a good answer, or that it is not good. */
  function AnswerOf(reply: ObjectMap.Reply): Option<Str> {
    match reply
    case Refused(_) => None
    case Started(id) => Some(id)
    case _ => Some([])
  }

  function Answered(d: Disk, op: Option<ObjectMap.Op>): (Disk, Option<Str>) {
    if op.None? then (d, None)
    else
      var (d', reply) := ObjectMap.Run(d, op.value);
      (d', AnswerOf(reply))
  }

  /** A request from its address to its answer. One that does not reach the handler is refused. */
  function Handle(d: Disk, address: Str, body: seq<Chunk>, c: Context): (Disk, Option<Str>) {
    var a := Arrives(address);
    if a.None? || ReadParams(a.value.query).None? then (d, None)
    else
      Answered(d, OpFor(a.value.bucket, a.value.key, ReadParams(a.value.query).value, body, c))
  }

  // ---- What the handler keeps ----

  /** Storage at rest, as far as its steps need it: `tmp` names no file, and no staging directory
      holds a temp file. */
  ghost predicate AtRest(d: Disk, tmp: Str) {
    && IsTempName(tmp)
    && (forall b :: FreshTemp(d, b, tmp))
    && (forall id :: id in d.uploads ==> d.uploads[id].temps == map[])
  }

  lemma SoundAtRest(d: Disk, tmp: Str)
    requires ObjectMap.Sound(d) && IsTempName(tmp)
    ensures AtRest(d, tmp)
  {
    hide EncodeKey, DecodeKey, IsTempName;
    forall b ensures FreshTemp(d, b, tmp) {
      if b in d.buckets {
        SoundHasNoTemp(d.buckets[b], tmp);
      }
    }
    assert forall id :: id in d.uploads ==> ObjectMap.SoundStaging(d.uploads[id]);
  }

  lemma SoundHasNoTemp(dir: BucketDir, tmp: Str)
    requires ObjectMap.SoundBucket(dir) && IsTempName(tmp)
    ensures tmp !in dir.objects.value && tmp !in dir.meta.value
  {
    hide EncodeKey, DecodeKey, IsTempName;
    if tmp in dir.objects.value {
      assert ObjectMap.SoundObject(dir, tmp);
      EncodedNames(DecodeKey(tmp).value, DecodeKey(tmp).value);
    }
    if tmp in dir.meta.value {
      assert ObjectMap.OwnedSidecar(dir.objects.value, tmp);
      SidecarNoTemp(Stem(tmp));
    }
  }

  lemma PutKeepsFresh(d: Disk, op: ObjectMap.Op, tmp: Str, b: Str)
    requires op.Put? && FreshTemp(d, b, tmp)
    ensures FreshTemp(ObjectMap.Run(d, op).0, b, tmp)
  {
    hide EncodeKey, IsTempName, Received, SidecarName;
    if EncodeKey(op.key).Success? {
      NamesApart(op.key, tmp);
    }
  }

  lemma CompleteKeepsFresh(d: Disk, op: ObjectMap.Op, tmp: Str, b: Str)
    requires op.Complete? && FreshTemp(d, b, tmp)
    ensures FreshTemp(ObjectMap.Run(d, op).0, b, tmp)
  {
    hide EncodeKey, IsTempName, Assembled, SidecarName;
    if EncodeKey(op.key).Success? {
      NamesApart(op.key, tmp);
    }
  }

  lemma UploadsKeepFresh(d: Disk, op: ObjectMap.Op, tmp: Str, b: Str)
    requires (op.CreateUpload? || op.UploadPart? || op.Abort?) && FreshTemp(d, b, tmp)
    ensures FreshTemp(ObjectMap.Run(d, op).0, b, tmp)
  {
    hide IsTempName, Received;
  }

  lemma StagingsKept(d: Disk, op: ObjectMap.Op, id: Str)
    requires op.Put? || op.Complete? || op.CreateUpload? || op.UploadPart? || op.Abort?
    requires id in ObjectMap.Run(d, op).0.uploads
    ensures id in d.uploads || (op.CreateUpload? && op.id == id)
    ensures var temps := ObjectMap.Run(d, op).0.uploads[id].temps;
      temps == map[] || (id in d.uploads && temps == d.uploads[id].temps)
  {
    hide EncodeKey, Received, Assembled;
  }

  /** An operation of the handler leaves the storage at rest, and the only upload it can add is
      the one it starts. */
  lemma OpKeepsRest(d: Disk, op: ObjectMap.Op, tmp: Str)
    requires op.Put? || op.Complete? || op.CreateUpload? || op.UploadPart? || op.Abort?
    requires AtRest(d, tmp)
    ensures AtRest(ObjectMap.Run(d, op).0, tmp)
    ensures forall id :: id in ObjectMap.Run(d, op).0.uploads ==> id in d.uploads || (op.CreateUpload? && op.id == id)
  {
    hide ObjectMap.Run, FreshTemp, IsTempName;
    var d' := ObjectMap.Run(d, op).0;
    forall b ensures FreshTemp(d', b, tmp) {
      assert FreshTemp(d, b, tmp);
      if op.Put? {
        PutKeepsFresh(d, op, tmp, b);
      } else if op.Complete? {
        CompleteKeepsFresh(d, op, tmp, b);
      } else {
        UploadsKeepFresh(d, op, tmp, b);
      }
    }
    forall id | id in d'.uploads
      ensures d'.uploads[id].temps == map[] && (id in d.uploads || (op.CreateUpload? && op.id == id))
    {
      StagingsKept(d, op, id);
    }
  }

  lemma HandleKeepsRest(d: Disk, address: Str, body: seq<Chunk>, c: Context, tmp: Str)
    requires AtRest(d, tmp)
    ensures AtRest(Handle(d, address, body, c).0, tmp)
    ensures forall id :: id in Handle(d, address, body, c).0.uploads ==> id in d.uploads || id == c.id
  {
    hide ObjectMap.Run, Arrives, ReadParams, AtRest, Received, PartList.ReadList;
    var a := Arrives(address);
    if a.Some? && ReadParams(a.value.query).Some? {
      var op := OpFor(a.value.bucket, a.value.key, ReadParams(a.value.query).value, body, c);
      if op.Some? {
        OpKeepsRest(d, op.value, tmp);
      }
    }
  }

  /** The branch that completes an upload. */
  method CompleteParts(storage: FsStorage, b: Str, key: Str, p: Params, body: seq<Chunk>, c: Context, tmp: Str)
    returns (answer: Option<Str>)
    requires AtRest(storage.disk, tmp) && p.action == Some(COMPLETE)
    modifies storage
    ensures (storage.disk, answer) == Answered(old(storage.disk), OpFor(b, key, p, body, c))
  {
    hide Received, PartList.ReadList, EncodeKey, IsTempName, FreshTemp, DiskOps.CompleteUpload;
    if p.uploadId.None? {
      return None;
    }
    var bytes := Received(body);
    if bytes.None? || |bytes.value| > PartList.LIST_LIMIT {
      return None;
    }
    var numbers := PartList.ReadList(bytes.value);
    if numbers.None? {
      return None;
    }
    var completed := storage.CompleteMultipartUpload(key, p.uploadId.value, numbers.value, c.now, tmp);
    return if completed.Success? then Some([]) else None;
  }

  /** The branches that store bytes: of a part, or of a whole object. */
  method StoreBytes(storage: FsStorage, b: Str, key: Str, p: Params, body: seq<Chunk>, c: Context, tmp: Str)
    returns (answer: Option<Str>)
    requires AtRest(storage.disk, tmp)
    requires p.action != Some(CREATE) && p.action != Some(COMPLETE) && p.action != Some(ABORT)
    modifies storage
    ensures (storage.disk, answer) == Answered(old(storage.disk), OpFor(b, key, p, body, c))
  {
    hide Received, EncodeKey, IsTempName, FreshTemp, DiskOps.UploadPart, DiskOps.PutObject;
    if p.uploadId.Some? && p.partNumber.Some? {
      var tagged := storage.UploadPart(p.uploadId.value, p.partNumber.value, body, tmp);
      return if tagged.Success? then Some([]) else None;
    }
    assert FreshTemp(storage.disk, b, tmp);
    var stored := storage.PutObject(b, key, body, c.contentType, c.now, tmp);
    return if stored.Success? then Some([]) else None;
  }

  /** `upload_handler`, branch by branch, from the arrival of the request on. */
  method Dispatch(storage: FsStorage, b: Str, key: Str, p: Params, body: seq<Chunk>, c: Context, tmp: Str)
    returns (answer: Option<Str>)
    requires AtRest(storage.disk, tmp) && c.id !in storage.disk.uploads
    modifies storage
    ensures (storage.disk, answer) == Answered(old(storage.disk), OpFor(b, key, p, body, c))
  {
    hide Received, PartList.ReadList, EncodeKey, IsTempName, FreshTemp, DiskOps.CreateUpload, DiskOps.AbortUpload;
    if p.action == Some(CREATE) {
      var started := storage.CreateMultipartUpload(b, key, c.contentType, c.id, tmp);
      return if started.Success? then Some(started.value) else None;
    }
    if p.action == Some(COMPLETE) {
      answer := CompleteParts(storage, b, key, p, body, c, tmp);
      return;
    }
    if p.action == Some(ABORT) {
      if p.uploadId.None? {
        return None;
      }
      var aborted := storage.AbortMultipartUpload(p.uploadId.value);
      return if aborted.Success? then Some([]) else None;
    }
    answer := StoreBytes(storage, b, key, p, body, c, tmp);
  }

  /** A request to any address. */
  method Post(storage: FsStorage, address: Str, body: seq<Chunk>, c: Context, tmp: Str)
    returns (answer: Option<Str>)
    requires AtRest(storage.disk, tmp) && c.id !in storage.disk.uploads
    modifies storage
    ensures (storage.disk, answer) == Handle(old(storage.disk), address, body, c)
  {
    hide Arrives, ReadParams, OpFor, AtRest;
    var a := Arrives(address);
    if a.None? {
      return None;
    }
    var p := ReadParams(a.value.query);
    if p.None? {
      return None;
    }
    answer := Dispatch(storage, a.value.bucket, a.value.key, p.value, body, c, tmp);
  }

  // ---- The queries of the protocol ----

  /** An upload id: hexadecimal digits and hyphens. */
  predicate IsUploadId(id: Str) {
    forall c :: c in id ==> 48 <= c <= 57 || 97 <= c <= 102 || c == 45
  }

  function CreateQuery(): Str {
    ACTION + [EQUALS] + CREATE
  }

  function PartQuery(id: Str, n: nat): Str {
    UPLOAD_ID + [EQUALS] + id + [AMPERSAND] + PART_NUMBER + [EQUALS] + Decimal(n)
  }

  function ActionQuery(id: Str, action: Str): Str {
    UPLOAD_ID + [EQUALS] + id + [AMPERSAND] + ACTION + [EQUALS] + action
  }

  lemma {:induction false} CutAt(a: Str, c: Byte, rest: Str)
    requires c !in a
    ensures Cut(a + [c] + rest, c) == (a, Some(rest))
  {
    var s := a + [c] + rest;
    if a == [] {
      assert s[1..] == rest;
    } else {
      assert a[0] in a;
      CutAt(a[1..], c, rest);
      assert s[1..] == a[1..] + [c] + rest;
      assert s[0] == a[0] != c && [a[0]] + a[1..] == a;
    }
  }

  lemma {:induction false} NothingToCut(a: Str, c: Byte)
    requires c !in a
    ensures Cut(a, c) == (a, None)
  {
    if a != [] {
      assert a[0] in a;
      NothingToCut(a[1..], c);
      assert [a[0]] + a[1..] == a;
    }
  }

  /** Text without plus and percent signs stays as it is. */
  lemma {:induction false} PlainFormText(s: Str)
    requires PLUS !in s && PERCENT !in s
    ensures FormDecode(s) == s
  {
    NoPlus(s);
    NoPercentDecodesToItself(s);
  }

  lemma {:induction false} NoPlus(s: Str)
    requires PLUS !in s
    ensures PlusToSpace(s) == s
  {
    if s != [] {
      assert s[0] in s;
      NoPlus(s[1..]);
    }
  }

  predicate IsWord(s: Str) {
    forall c :: c in s ==> IsAlphanumeric(c) || c == 45
  }

  /** One field of words. */
  lemma FieldOfWords(p: Params, name: Str, value: Str)
    requires IsWord(name) && IsWord(value)
    ensures AddField(p, name + [EQUALS] + value) ==
      if name == UPLOAD_ID then (if p.uploadId.Some? then None else Some(p.(uploadId := Some(value))))
      else if name == ACTION then (if p.action.Some? then None else Some(p.(action := Some(value))))
      else if name == PART_NUMBER then
        if p.partNumber.Some? || ParseI32(value).None? then None else Some(p.(partNumber := ParseI32(value)))
      else Some(p)
  {
    hide ParseI32, Cut, FormDecode;
    CutAt(name, EQUALS, value);
    PlainFormText(name);
    PlainFormText(value);
  }

  lemma WordsArePlain(q: Str)
    requires forall c :: c in q ==> IsAlphanumeric(c) || c == 45 || c == EQUALS || c == AMPERSAND
    ensures IsPlainQuery(q)
  {
  }

  lemma CreateParams()
    ensures IsPlainQuery(CreateQuery())
    ensures ReadParams(Some(CreateQuery())) == Some(Params(None, None, Some(CREATE)))
  {
    hide Cut, AddField, IsPlainQuery;
    WordsArePlain(CreateQuery());
    NothingToCut(CreateQuery(), AMPERSAND);
    FieldOfWords(NO_PARAMS, ACTION, CREATE);
  }

  lemma TwoFields(id: Str, name: Str, value: Str)
    requires IsUploadId(id) && IsWord(name) && IsWord(value) && name != UPLOAD_ID
    ensures var q := UPLOAD_ID + [EQUALS] + id + [AMPERSAND] + name + [EQUALS] + value;
      IsPlainQuery(q) && ReadParams(Some(q)) == AddField(Params(Some(id), None, None), name + [EQUALS] + value)
  {
    hide Cut, AddField, IsPlainQuery, IsAlphanumeric;
    var first, second := UPLOAD_ID + [EQUALS] + id, name + [EQUALS] + value;
    var q := first + [AMPERSAND] + second;
    assert UPLOAD_ID + [EQUALS] + id + [AMPERSAND] + name + [EQUALS] + value == q;
    IdsAreWords(id);
    WordsHaveNoMarks(id);
    WordsHaveNoMarks(name);
    WordsHaveNoMarks(value);
    WordsArePlain(q);
    CutAt(first, AMPERSAND, second);
    FieldOfWords(NO_PARAMS, UPLOAD_ID, id);
    NothingToCut(second, AMPERSAND);
    var p := Params(Some(id), None, None);
    assert AddField(NO_PARAMS, first) == Some(p);
    assert AddFields(p, second) == AddField(p, second);
  }

  lemma IdsAreWords(id: Str)
    requires IsUploadId(id)
    ensures IsWord(id) && IsWord(UPLOAD_ID)
  {
  }

  lemma WordsHaveNoMarks(s: Str)
    requires IsWord(s)
    ensures AMPERSAND !in s && EQUALS !in s
  {
  }

  lemma PartParams(id: Str, n: nat)
    requires IsUploadId(id)
    ensures IsPlainQuery(PartQuery(id, n))
    ensures ReadParams(Some(PartQuery(id, n))) == if n <= MAX_I32 then Some(Params(Some(id), Some(n), None)) else None
  {
    hide ReadParams, IsPlainQuery, Decimal;
    DecimalValue(n);
    DecimalParses(n);
    assert IsWord(Decimal(n)) && IsWord(PART_NUMBER);
    TwoFields(id, PART_NUMBER, Decimal(n));
    FieldOfWords(Params(Some(id), None, None), PART_NUMBER, Decimal(n));
  }

  lemma ActionParams(id: Str, action: Str)
    requires IsUploadId(id) && (action == COMPLETE || action == ABORT)
    ensures IsPlainQuery(ActionQuery(id, action))
    ensures ReadParams(Some(ActionQuery(id, action))) == Some(Params(Some(id), None, Some(action)))
  {
    hide ReadParams, IsPlainQuery;
    assert IsWord(action) && IsWord(ACTION);
    TwoFields(id, ACTION, action);
    FieldOfWords(Params(Some(id), None, None), ACTION, action);
  }

  /** Form text, byte by byte: a plus sign is a space, an escape the byte it spells, anything else
      itself. */
  lemma FormDecodesEachByte(b: Byte, x: Byte, y: Byte, rest: Str)
    requires HexValue(x).Some? && HexValue(y).Some?
    ensures FormDecode([]) == []
    ensures FormDecode([43] + rest) == [32] + FormDecode(rest)
    ensures b != 37 && b != 43 ==> FormDecode([b] + rest) == [b] + FormDecode(rest)
    ensures FormDecode([37, x, y] + rest) == [16 * HexValue(x).value + HexValue(y).value] + FormDecode(rest)
  {
    hide PercentDecode;
    PlusStep(43, rest);
    PlusStep(b, rest);
    PlusStep(37, [x, y] + rest);
    PlusStep(x, [y] + rest);
    PlusStep(y, rest);
    assert [37] + ([x, y] + rest) == [37, x, y] + rest && [x] + ([y] + rest) == [x, y] + rest;
    assert x != 43 && y != 43;
    assert [37] + ([x] + ([y] + PlusToSpace(rest))) == [37, x, y] + PlusToSpace(rest);
    DecodesEachByte(32, x, y, PlusToSpace(rest));
    DecodesEachByte(b, x, y, PlusToSpace(rest));
  }

  lemma PlusStep(b: Byte, rest: Str)
    ensures PlusToSpace([b] + rest) == [if b == 43 then 32 else b] + PlusToSpace(rest)
    ensures PlusToSpace([]) == []
  {
    assert ([b] + rest)[1..] == rest;
  }

  // ---- Queries of any fields ----

  /** The fields of a query, joined. */
  function QueryOf(fields: seq<(Str, Str)>): Str {
    if fields == [] then []
    else if |fields| == 1 then fields[0].0 + [EQUALS] + fields[0].1
    else fields[0].0 + [EQUALS] + fields[0].1 + [AMPERSAND] + QueryOf(fields[1..])
  }

  /** What the query gives a name, in order. */
  function Values(fields: seq<(Str, Str)>, name: Str): seq<Str> {
    if fields == [] then []
    else (if fields[0].0 == name then [fields[0].1] else []) + Values(fields[1..], name)
  }

  ghost predicate AllWords(fields: seq<(Str, Str)>) {
    forall f :: f in fields ==> IsWord(f.0) && IsWord(f.1)
  }

  /** A value that may be given once. */
  function Once(given: Option<Str>, values: seq<Str>): Option<Option<Str>> {
    if values == [] then Some(given)
    else if given.None? && |values| == 1 then Some(Some(values[0]))
    else None
  }

  function OnceNumber(given: Option<int>, values: seq<Str>): Option<Option<int>> {
    if values == [] then Some(given)
    else if given.None? && |values| == 1 && ParseI32(values[0]).Some? then Some(ParseI32(values[0]))
    else None
  }

  function Together(u: Option<Option<Str>>, n: Option<Option<int>>, a: Option<Option<Str>>): Option<Params> {
    if u.Some? && n.Some? && a.Some? then Some(Params(u.value, n.value, a.value)) else None
  }

  lemma OneMore(given: Option<Str>, number: Option<int>, v: Str, vs: seq<Str>)
    ensures Once(given, [v] + vs) == if given.Some? then None else Once(Some(v), vs)
    ensures OnceNumber(number, [v] + vs) ==
      if number.Some? || ParseI32(v).None? then None else OnceNumber(ParseI32(v), vs)
  {
    hide ParseI32;
  }

  lemma ValuesSplit(fields: seq<(Str, Str)>, name: Str)
    requires fields != []
    ensures Values(fields, name) ==
      if fields[0].0 == name then [fields[0].1] + Values(fields[1..], name) else Values(fields[1..], name)
  {
  }

  lemma NoValues(fields: seq<(Str, Str)>)
    requires |fields| == 0
    ensures forall name :: Values(fields, name) == []
  {
  }

  lemma OnceGiven(given: Option<Str>, number: Option<int>)
    ensures Once(given, []) == Some(given) && OnceNumber(number, []) == Some(number)
  {
  }

  lemma {:induction false} FieldsAdded(p: Params, fields: seq<(Str, Str)>)
    requires fields != [] && AllWords(fields)
    ensures AddFields(p, QueryOf(fields)) == Together(
      Once(p.uploadId, Values(fields, UPLOAD_ID)),
      OnceNumber(p.partNumber, Values(fields, PART_NUMBER)),
      Once(p.action, Values(fields, ACTION)))
    decreases |fields|
  {
    hide Cut, AddField, ParseI32, IsWord, Values, Once, OnceNumber;
    var (name, value) := fields[0];
    assert fields[0] in fields;
    ValuesSplit(fields, UPLOAD_ID);
    ValuesSplit(fields, PART_NUMBER);
    ValuesSplit(fields, ACTION);
    OneMore(p.uploadId, p.partNumber, value, Values(fields[1..], name));
    OneMore(p.action, p.partNumber, value, Values(fields[1..], name));
    var field := name + [EQUALS] + value;
    FieldOfWords(p, name, value);
    WordsHaveNoMarks(name);
    WordsHaveNoMarks(value);
    if |fields| == 1 {
      NothingToCut(field, AMPERSAND);
      NoValues(fields[1..]);
      OnceGiven(p.uploadId, p.partNumber);
      OnceGiven(p.action, p.partNumber);
      OnceGiven(Some(value), ParseI32(value));
    } else {
      var rest := fields[1..];
      CutAt(field, AMPERSAND, QueryOf(rest));
      var p' := AddField(p, field);
      if p'.Some? {
        assert forall f :: f in rest ==> f in fields;
        FieldsAdded(p'.value, rest);
      }
    }
  }

  /** What the handler reads from a query of plain words: each of the three names may be given once,
      in any order, the part number as a number; any other name is ignored. */
  lemma QueryReads(fields: seq<(Str, Str)>)
    requires fields != [] && AllWords(fields)
    ensures ReadParams(Some(QueryOf(fields))) == Together(
      Once(None, Values(fields, UPLOAD_ID)),
      OnceNumber(None, Values(fields, PART_NUMBER)),
      Once(None, Values(fields, ACTION)))
  {
    hide Values, Once, OnceNumber;
    FieldsAdded(NO_PARAMS, fields);
  }

  /** So a name given twice is an error. */
  lemma RepeatedName(name: Str, v: Str, w: Str)
    requires IsWord(v) && IsWord(w) && (name == UPLOAD_ID || name == PART_NUMBER || name == ACTION)
    ensures ReadParams(Some(name + [EQUALS] + v + [AMPERSAND] + name + [EQUALS] + w)) == None
  {
    hide ReadParams, IsWord;
    NamesAreWords();
    var fields := [(name, v), (name, w)];
    var last := [(name, w)];
    assert fields[1..] == last;
    assert Values(last, name) == [w];
    assert Values(fields, name) == [v, w];
    assert QueryOf(fields) == name + [EQUALS] + v + [AMPERSAND] + (name + [EQUALS] + w);
    assert name + [EQUALS] + v + [AMPERSAND] + (name + [EQUALS] + w)
      == name + [EQUALS] + v + [AMPERSAND] + name + [EQUALS] + w;
    QueryReads(fields);
  }

  lemma NamesAreWords()
    ensures IsWord(UPLOAD_ID) && IsWord(PART_NUMBER) && IsWord(ACTION)
  {
  }
}
