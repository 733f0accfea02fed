/** The whole of `list_objects_v2`, from directory entries to response: crates/storage/src/list.rs:52-195. */
module Listing {
  import opened Wrappers
  import opened Bytes
  import opened Sorting
  import opened KeyEncoding
  import opened Meta
  import opened Collapsing
  import opened Paging

  /** A continuation token: the key it encodes, or text that does not decode. */
  datatype Token = After(key: Str) | Malformed

  datatype Request = Request(prefix: Option<Str>, delimiter: Option<Str>, token: Option<Token>, maxKeys: Option<nat>) {
    function ListScope(): Scope {
      Scope(if prefix.Some? then prefix.value else [], delimiter)
    }

    function StartAfter(): Option<Str>
      requires token != Some(Malformed)
    {
      if token.Some? then Some(token.value.key) else None
    }
  }

  datatype Response = Response(
    objects: seq<ObjectMeta>, commonPrefixes: seq<Str>, next: Option<Str>, isTruncated: bool)

  /** The keys whose names decode; other directory entries are skipped. */
  function DecodeAll(names: seq<Str>): (keys: seq<Str>)
    ensures forall k :: k in keys <==> exists n :: n in names && DecodeKey(n) == Success(k)
  {
    if names == [] then []
    else
      var d := DecodeKey(names[0]);
      assert forall n :: n in names <==> n == names[0] || n in names[1..];
      (if d.Success? then [d.value] else []) + DecodeAll(names[1..])
  }

  function ListedKeys(names: seq<Str>): seq<Str> {
    Sort(Leq, DecodeAll(names))
  }

  function ObjectKeys(items: seq<Item>): seq<Str> {
    if items == [] then []
    else (if items[0].Object? then [items[0].key] else []) + ObjectKeys(items[1..])
  }

  function PrefixNames(items: seq<Item>): seq<Str> {
    if items == [] then []
    else (if items[0].CommonPrefix? then [items[0].prefix] else []) + PrefixNames(items[1..])
  }

  function MetaOf(files: map<Str, Sidecar>, key: Str): Result<ObjectMeta> {
    var encoded :- EncodeKey(key);
    ReadSidecar(files, SidecarName(encoded))
  }

  /** The metadata of every key, or the first failure. */
  function MetasOf(files: map<Str, Sidecar>, keys: seq<Str>): Result<seq<ObjectMeta>> {
    if keys == [] then Success([])
    else
      var earlier :- MetasOf(files, keys[..|keys| - 1]);
      var m :- MetaOf(files, keys[|keys| - 1]);
      Success(earlier + [m])
  }

  /** What a listing answers: a page of the ordered keys, each object with its sidecar's metadata. */
  function Answer(names: seq<Str>, files: map<Str, Sidecar>, req: Request): Result<Response> {
    if req.token == Some(Malformed) then Failure(InvalidContinuationToken)
    else
      var page := PageOf(req.ListScope(), ListedKeys(names), req.StartAfter(), req.maxKeys);
      var metas :- MetasOf(files, ObjectKeys(page.items));
      Success(Response(metas, Sort(Leq, PrefixNames(page.items)), page.next, page.next.Some?))
  }

  lemma {:induction false} ObjectKeysSnoc(items: seq<Item>, item: Item)
    ensures ObjectKeys(items + [item]) == if item.Object? then ObjectKeys(items) + [item.key] else ObjectKeys(items)
  {
    if items == [] {
      assert [item][1..] == [] && [] + [item] == [item];
    } else {
      assert (items + [item])[0] == items[0] && (items + [item])[1..] == items[1..] + [item];
      ObjectKeysSnoc(items[1..], item);
    }
  }

  lemma {:induction false} PrefixNamesSnoc(items: seq<Item>, item: Item)
    ensures PrefixNames(items + [item]) ==
      if item.CommonPrefix? then PrefixNames(items) + [item.prefix] else PrefixNames(items)
  {
    if items == [] {
      assert [item][1..] == [] && [] + [item] == [item];
    } else {
      assert (items + [item])[0] == items[0] && (items + [item])[1..] == items[1..] + [item];
      PrefixNamesSnoc(items[1..], item);
    }
  }

  lemma {:induction false} DecodeAllSnoc(names: seq<Str>, name: Str)
    ensures DecodeAll(names + [name]) ==
      DecodeAll(names) + if DecodeKey(name).Success? then [DecodeKey(name).value] else []
  {
    hide DecodeKey;
    if names == [] {
      assert [name][1..] == [];
    } else {
      assert (names + [name])[1..] == names[1..] + [name];
      DecodeAllSnoc(names[1..], name);
    }
  }

  lemma MetasOfSnoc(files: map<Str, Sidecar>, keys: seq<Str>, key: Str)
    ensures MetasOf(files, keys + [key]) ==
      if MetasOf(files, keys).Failure? then MetasOf(files, keys)
      else if MetaOf(files, key).Failure? then Failure(MetaOf(files, key).error)
      else Success(MetasOf(files, keys).value + [MetaOf(files, key).value])
  {
    assert (keys + [key])[..|keys|] == keys;
  }

  /** The metadata of page items, read one by one, with CommonPrefixes set aside. */
  method ReadPage(files: map<Str, Sidecar>, items: seq<Item>)
    returns (r: Result<(seq<ObjectMeta>, seq<Str>)>)
    ensures var metas := MetasOf(files, ObjectKeys(items));
      r == if metas.Failure? then Failure(metas.error) else Success((metas.value, PrefixNames(items)))
  {
    var objects: seq<ObjectMeta>, prefixes: seq<Str> := [], [];
    for i := 0 to |items|
      invariant MetasOf(files, ObjectKeys(items[..i])) == Success(objects)
      invariant PrefixNames(items[..i]) == prefixes
    {
      assert items[..i + 1] == items[..i] + [items[i]];
      ObjectKeysSnoc(items[..i], items[i]);
      PrefixNamesSnoc(items[..i], items[i]);
      match items[i]
      case Object(key) =>
        MetasOfSnoc(files, ObjectKeys(items[..i]), key);
        var m := MetaOf(files, key);
        if m.Failure? {
          FailureStays(files, items, i + 1);
          return Failure(m.error);
        }
        objects := objects + [m.value];
      case CommonPrefix(cp) =>
        prefixes := prefixes + [cp];
    }
    assert items[..|items|] == items;
    r := Success((objects, prefixes));
  }

  lemma {:induction false} FailureStays(files: map<Str, Sidecar>, items: seq<Item>, i: nat)
    requires i <= |items| && MetasOf(files, ObjectKeys(items[..i])).Failure?
    ensures MetasOf(files, ObjectKeys(items)) == MetasOf(files, ObjectKeys(items[..i]))
    decreases |items| - i
  {
    if i < |items| {
      assert items[..i + 1] == items[..i] + [items[i]];
      ObjectKeysSnoc(items[..i], items[i]);
      if items[i].Object? {
        MetasOfSnoc(files, ObjectKeys(items[..i]), items[i].key);
      }
      FailureStays(files, items, i + 1);
    } else {
      assert items[..i] == items;
    }
  }

  /** `names` are the entries of objects/ in the order `read_dir` gives them, none if the
      directory is gone; `files` is meta/. */
  method ListObjectsV2(names: seq<Str>, files: map<Str, Sidecar>, req: Request) returns (r: Result<Response>)
    ensures r == Answer(names, files, req)
  {
    hide DecodeKey, Sort, Retain, MetasOf, ObjectKeys, PrefixNames, Runs;
    var keys: seq<Str> := [];
    for i := 0 to |names|
      invariant keys == DecodeAll(names[..i])
    {
      assert names[..i + 1] == names[..i] + [names[i]];
      DecodeAllSnoc(names[..i], names[i]);
      var key := DecodeKey(names[i]);
      if key.Success? {
        keys := keys + [key.value];
      }
    }
    assert names[..|names|] == names;
    keys := Sort(Leq, keys);

    if req.token.Some? {
      if req.token.value.Malformed? {
        return Failure(InvalidContinuationToken);
      }
      var after := req.token.value.key;
      keys := Retain(keys, k => Lt(after, k));
    }
    var sc := req.ListScope();
    keys := Retain(keys, k => sc.Matches(k));
    assert keys == Select(sc, ListedKeys(names), req.StartAfter());

    var emitted := DeriveItems(sc, keys);
    var maxKeys := PageSize(req.maxKeys);
    var isTruncated := |emitted| > maxKeys;
    var next := None;
    var capped := emitted;
    if isTruncated {
      next := Some(emitted[maxKeys - 1].lastKey);
      capped := emitted[..maxKeys];
    }
    var read := ReadPage(files, Items(capped));
    if read.Failure? {
      return Failure(read.error);
    }
    r := Success(Response(read.value.0, Sort(Leq, read.value.1), next, isTruncated));
  }

  // ---- Properties ----

  lemma LeqTotalOrder()
    ensures TotalOrder(Leq)
  {
    forall x: Str, y: Str
      ensures Leq(x, y) || Leq(y, x)
      ensures Leq(x, y) && Leq(y, x) ==> x == y
    {
      LtTotal(x, y);
      if Lt(x, y) {
        LtAsymmetric(x, y);
      }
    }
    forall x: Str, y: Str, z: Str | Leq(x, y) && Leq(y, z) ensures Leq(x, z) {
      if y != z {
        LeqLtTransitive(x, y, z);
      }
    }
  }

  /** No two entries of the directory stand for the same key. */
  ghost predicate DistinctKeys(names: seq<Str>) {
    forall i, j :: 0 <= i < j < |names| && DecodeKey(names[i]).Success? ==> DecodeKey(names[i]) != DecodeKey(names[j])
  }

  lemma {:induction false} DecodedOnce(names: seq<Str>, k: Str)
    requires DistinctKeys(names)
    ensures multiset(DecodeAll(names))[k] <= 1
  {
    if names != [] {
      DecodedOnce(names[1..], k);
      var d := DecodeKey(names[0]);
      forall n | n in names[1..] && d.Success? ensures DecodeKey(n) != d {
        var j :| 0 <= j < |names[1..]| && names[1..][j] == n;
        assert names[j + 1] == n;
      }
    }
  }

  lemma {:induction false} StrictFromSorted(s: seq<Str>)
    requires SortedBy(Leq, s) && forall k :: multiset(s)[k] <= 1
    ensures StrictlySorted(s)
  {
    if s != [] {
      assert s == [s[0]] + s[1..];
      assert multiset(s) == multiset{s[0]} + multiset(s[1..]);
      forall k ensures multiset(s[1..])[k] <= 1 {
        assert multiset(s)[k] <= 1;
      }
      StrictFromSorted(s[1..]);
      forall j | 1 <= j < |s| ensures Lt(s[0], s[j]) {
        assert multiset(s)[s[0]] <= 1;
        assert s[0] !in s[1..] && s[j] in s[1..];
        assert Leq(s[0], s[j]);
      }
    }
  }

  /** The keys a listing works on: those the directory holds, in strictly increasing order,
      whatever order `read_dir` gives them in. */
  lemma ListedKeysSorted(names: seq<Str>)
    requires DistinctKeys(names)
    ensures StrictlySorted(ListedKeys(names))
    ensures forall k :: k in ListedKeys(names) <==> exists n :: n in names && DecodeKey(n) == Success(k)
  {
    LeqTotalOrder();
    SortSorted(Leq, DecodeAll(names));
    forall k ensures multiset(ListedKeys(names))[k] <= 1 {
      DecodedOnce(names, k);
    }
    StrictFromSorted(ListedKeys(names));
    SameElements(ListedKeys(names), DecodeAll(names));
  }

  lemma {:induction false} PrefixNamesSorted(items: seq<Item>)
    requires Increasing(items)
    ensures StrictlySorted(PrefixNames(items))
    ensures forall x :: x in PrefixNames(items) <==> CommonPrefix(x) in items
  {
    if items != [] {
      PrefixNamesSorted(items[1..]);
      assert items == [items[0]] + items[1..];
      var rest := PrefixNames(items[1..]);
      forall j | 0 <= j < |rest| ensures Lt(items[0].Name(), rest[j]) {
        assert CommonPrefix(rest[j]) in items[1..];
        var p :| 0 <= p < |items[1..]| && items[1..][p] == CommonPrefix(rest[j]);
        assert items[p + 1] == CommonPrefix(rest[j]);
      }
    }
  }

  lemma {:induction false} MetasOfEach(files: map<Str, Sidecar>, keys: seq<Str>)
    ensures MetasOf(files, keys).Success? <==> forall k :: k in keys ==> MetaOf(files, k).Success?
    ensures MetasOf(files, keys).Success? ==>
      && |MetasOf(files, keys).value| == |keys|
      && forall i :: 0 <= i < |keys| ==> MetaOf(files, keys[i]) == Success(MetasOf(files, keys).value[i])
  {
    hide MetaOf;
    if keys != [] {
      var n := |keys| - 1;
      MetasOfEach(files, keys[..n]);
      assert keys == keys[..n] + [keys[n]];
    }
  }

  lemma {:induction false} ObjectKeysElements(items: seq<Item>)
    ensures forall k :: k in ObjectKeys(items) <==> Object(k) in items
  {
    if items != [] {
      ObjectKeysElements(items[1..]);
      assert items == [items[0]] + items[1..];
    }
  }

  /** A listing succeeds exactly when every object on its page has readable metadata; then it
      carries that metadata in key order, the page's CommonPrefixes in emission order (the
      final sort changes nothing), and is truncated exactly when it has a next token. */
  lemma AnswerMeaning(names: seq<Str>, files: map<Str, Sidecar>, req: Request)
    requires DistinctKeys(names) && req.token != Some(Malformed)
    ensures var page := PageOf(req.ListScope(), ListedKeys(names), req.StartAfter(), req.maxKeys);
      var answer := Answer(names, files, req);
      && Increasing(page.items)
      && (answer.Success? <==> forall k :: Object(k) in page.items ==> MetaOf(files, k).Success?)
      && (answer.Success? ==>
           && var keys, r := ObjectKeys(page.items), answer.value;
           && |r.objects| == |keys|
           && (forall i :: 0 <= i < |keys| ==> MetaOf(files, keys[i]) == Success(r.objects[i]))
           && r.commonPrefixes == PrefixNames(page.items)
           && StrictlySorted(r.commonPrefixes)
           && r.next == page.next && r.isTruncated == page.next.Some?)
  {
    var sc, keys, after := req.ListScope(), ListedKeys(names), req.StartAfter();
    var page := PageOf(sc, keys, after, req.maxKeys);
    ListedKeysSorted(names);
    PageIncreases(sc, keys, after, req.maxKeys);
    MetasOfEach(files, ObjectKeys(page.items));
    ObjectKeysElements(page.items);
    PrefixNamesSorted(page.items);
    LeqTotalOrder();
    SortCanonical(Leq, PrefixNames(page.items), PrefixNames(page.items));
  }

  lemma MalformedToken(names: seq<Str>, files: map<Str, Sidecar>, req: Request)
    requires req.token == Some(Malformed)
    ensures Answer(names, files, req) == Failure(InvalidContinuationToken)
  {
  }

  /** A temp file in objects/ is listed like an object; for want of a sidecar it makes every
      listing whose page reaches it fail. */
  lemma TempFileFailsListing(names: seq<Str>, files: map<Str, Sidecar>, req: Request, temp: Str)
    requires DistinctKeys(names) && req.token != Some(Malformed)
    requires temp in names && IsTempName(temp) && MetaOf(files, temp).Failure?
    requires req.prefix.None? && req.delimiter.None?
    requires var page := PageOf(req.ListScope(), ListedKeys(names), req.StartAfter(), req.maxKeys);
      InWindow(req.ListScope(), req.StartAfter(), page.next, temp)
    ensures Answer(names, files, req).Failure?
  {
    TempNamesDecode(temp);
    ListedKeysSorted(names);
    PageCovers(req.ListScope(), ListedKeys(names), req.StartAfter(), req.maxKeys, temp);
    AnswerMeaning(names, files, req);
  }
}
