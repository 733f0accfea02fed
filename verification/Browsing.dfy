/** A client that lists a bucket page by page while others change it, all the way from the
    directories on disk to the responses. */
module Browsing {
  import opened Wrappers
  import opened Bytes
  import opened KeyEncoding
  import opened DiskOps
  import opened ObjectMap
  import opened Collapsing
  import opened Paging
  import Listing
  import opened ListingLaws

  /** One request of the client: the disk it meets, the order `read_dir` yields the entries
      in, and the request. */
  datatype Visit = Visit(disk: Disk, names: seq<Str>, req: Listing.Request)

  ghost predicate Answerable(v: Visit, b: Str) {
    && Sound(v.disk) && b in v.disk.buckets
    && multiset(v.names) == multiset(ObjectFiles(v.disk, b).Keys)
    && v.req.token != Some(Listing.Malformed)
  }

  function Answered(v: Visit, b: Str): Result<Listing.Response> {
    ListObjects(v.disk, b, v.names, v.req)
  }

  ghost function BucketMap(v: Visit, b: Str): Bucket
    requires Answerable(v, b)
  {
    View(v.disk).buckets[b]
  }

  lemma AnswerIsPage(v: Visit, b: Str)
    requires Answerable(v, b)
    ensures Answered(v, b) == Success(ListBucket(BucketMap(v, b), v.req))
  {
    hide EncodeKey, DecodeKey, SoundBucket, Listing.Answer, ListBucket;
    var dir := v.disk.buckets[b];
    assert SoundBucket(dir);
    SoundDirs(dir);
    ListBucketRefines(dir, v.names, v.req);
  }

  /** The client keeps prefix and delimiter, chooses its page sizes, and asks with the token of
      the last response until one has none. */
  ghost predicate Browses(visits: seq<Visit>, b: Str) {
    && visits != []
    && Answerable(visits[0], b)
    && Answered(visits[0], b).Success?
    && var next := Answered(visits[0], b).value.next;
    && (if |visits| == 1 then next.None?
        else
          && next.Some?
          && visits[1].req == Listing.Request(
               visits[0].req.prefix, visits[0].req.delimiter, Some(Listing.After(next.value)), visits[1].req.maxKeys)
          && Browses(visits[1..], b))
  }

  /** The response shows the key: by its metadata, or by a CommonPrefix it starts with. */
  ghost predicate Shows(r: Listing.Response, m: Bucket, k: Str)
    requires k in m
  {
    m[k].meta in r.objects || exists x :: x in r.commonPrefixes && x <= k
  }

  lemma ListedItemShows(m: Bucket, req: Listing.Request, k: Str)
    requires req.token != Some(Listing.Malformed) && k in m && req.ListScope().Matches(k)
    requires var page := PageOf(req.ListScope(), Ordered(m.Keys), req.StartAfter(), req.maxKeys);
      req.ListScope().Collapse(k) in page.items && Increasing(page.items)
    ensures Shows(ListBucket(m, req), m, k)
  {
    hide PageOf, Ordered, Bytes.Find;
    var sc := req.ListScope();
    var page := PageOf(sc, Ordered(m.Keys), req.StartAfter(), req.maxKeys);
    Listing.ObjectKeysElements(page.items);
    Listing.PrefixNamesSorted(page.items);
    var keys, r := Listing.ObjectKeys(page.items), ListBucket(m, req);
    if sc.Collapse(k).CommonPrefix? {
      CollapseIsCommonPrefix(sc, k);
      assert sc.Collapse(k).prefix in r.commonPrefixes;
    } else {
      assert sc.Collapse(k) == Object(k);
      var j :| 0 <= j < |keys| && keys[j] == k;
      assert r.objects[j] == m[k].meta;
    }
  }

  /** However the bucket changes between the pages: a key with the prefix that was there at
      every request is shown by some response. */
  lemma {:induction false} BrowsingShowsEveryKey(visits: seq<Visit>, b: Str, k: Str) returns (i: nat)
    requires Browses(visits, b)
    requires forall j :: 0 <= j < |visits| ==> Answerable(visits[j], b) && k in BucketMap(visits[j], b)
    requires Wanted(visits[0].req, k)
    ensures i < |visits| && Answered(visits[i], b).Success?
    ensures Shows(Answered(visits[i], b).value, BucketMap(visits[i], b), k)
    decreases |visits|
  {
    hide Answered, Shows, View, Sound, PageOf, Ordered, EncodeKey, DecodeKey;
    var v := visits[0];
    var m, sc, after := BucketMap(v, b), v.req.ListScope(), v.req.StartAfter();
    var keys := Ordered(m.Keys);
    var page := PageOf(sc, keys, after, v.req.maxKeys);
    AnswerIsPage(v, b);
    NotMalformed(v, b);
    WantedIsLive(v.req, k);
    if page.next.None? || Leq(k, page.next.value) {
      PageCovers(sc, keys, after, v.req.maxKeys, k);
      PageIncreases(sc, keys, after, v.req.maxKeys);
      ListedItemShows(m, v.req, k);
      i := 0;
    } else {
      LtTotal(k, page.next.value);
      assert visits[1..][0] == visits[1];
      assert Wanted(visits[1].req, k);
      i := BrowsingShowsEveryKey(visits[1..], b, k);
      assert visits[1..][i] == visits[i + 1];
      i := i + 1;
    }
  }

  // ---- Progress ----

  /** The client keeps prefix and delimiter, and asks with the token of the last response. */
  ghost predicate Follows(visits: seq<Visit>, b: Str) {
    && visits != []
    && Answerable(visits[0], b)
    && (|visits| > 1 ==>
         && NextOf(visits[0], b).Some?
         && visits[1].req.prefix == visits[0].req.prefix && visits[1].req.delimiter == visits[0].req.delimiter
         && visits[1].req.token == Some(Listing.After(NextOf(visits[0], b).value))
         && Follows(visits[1..], b))
  }

  /** The token of a response. */
  function NextOf(v: Visit, b: Str): Option<Str> {
    var r := Answered(v, b);
    if r.Success? then r.value.next else None
  }

  /** A listing of a well-formed bucket answers, and its token lies above the one it was asked with. */
  lemma NextIsAbove(v: Visit, b: Str, t: Str)
    requires Answerable(v, b)
    ensures Answered(v, b).Success?
    ensures v.req.token == Some(Listing.After(t)) && NextOf(v, b).Some? ==> Lt(t, NextOf(v, b).value)
  {
    hide Sound, SoundBucket, Listing.Answer, EncodeKey, DecodeKey, ListBucket, Listing.DistinctKeys, Lt;
    AnswerIsPage(v, b);
    var dir := v.disk.buckets[b];
    assert SoundBucket(dir) by {
      SoundOne(v.disk, b);
    }
    SoundDirs(dir);
    NamesOnce(dir, v.names);
    if v.req.token == Some(Listing.After(t)) {
      var keys := AboveToken(v.names, dir.meta.value, v.req, Answered(v, b).value, t);
    }
  }

  lemma NotMalformed(v: Visit, b: Str)
    requires Answerable(v, b)
    ensures v.req.token != Some(Listing.Malformed)
  {
    hide Sound;
  }

  lemma SoundOne(d: Disk, b: Str)
    requires Sound(d) && b in d.buckets
    ensures SoundBucket(d.buckets[b])
  {
    hide SoundBucket;
  }

  lemma {:induction false} FollowsEach(visits: seq<Visit>, b: Str, i: nat)
    requires Follows(visits, b) && i < |visits|
    ensures Answerable(visits[i], b) && Answered(visits[i], b).Success?
    ensures i + 1 < |visits| ==>
      NextOf(visits[i], b).Some? && visits[i + 1].req.token == Some(Listing.After(NextOf(visits[i], b).value))
    decreases |visits|
  {
    hide Answered, Answerable, NextOf;
    if i == 0 {
      NextIsAbove(visits[0], b, []);
    } else {
      FollowsEach(visits[1..], b, i - 1);
    }
  }

  /** However the bucket changes in between, the tokens of the responses strictly increase. */
  lemma {:induction false} BrowsingProgresses(visits: seq<Visit>, b: Str, i: nat, j: nat)
    requires Follows(visits, b) && i < j < |visits|
    ensures NextOf(visits[i], b).Some?
    ensures NextOf(visits[j], b).Some? ==> Lt(NextOf(visits[i], b).value, NextOf(visits[j], b).value)
    decreases j
  {
    hide Answered, Answerable, NextOf, Follows, Lt;
    FollowsEach(visits, b, i);
    FollowsEach(visits, b, j - 1);
    FollowsEach(visits, b, j);
    NextIsAbove(visits[j], b, NextOf(visits[j - 1], b).value);
    if i < j - 1 {
      BrowsingProgresses(visits, b, i, j - 1);
      if NextOf(visits[j], b).Some? {
        LtTransitive(NextOf(visits[i], b).value, NextOf(visits[j - 1], b).value, NextOf(visits[j], b).value);
      }
    }
  }

  /** The bucket is the same at every request. */
  ghost predicate Unchanged(visits: seq<Visit>, b: Str, m: Bucket) {
    forall v :: v in visits ==> Answerable(v, b) && BucketMap(v, b) == m
  }

  /** The keys that a request lists by themselves, and the strings that others fall under. */
  ghost function ListedAlone(m: Bucket, req: Listing.Request): set<Str> {
    set k | k in m && Wanted(req, k) && Single(req, k)
  }

  ghost function ListedUnder(m: Bucket, req: Listing.Request): set<Str> {
    set k, n | k in m && 0 <= n <= |k| && Wanted(req, k) && FallsUnder(req, k, k[..n]) :: k[..n]
  }

  /** How many results the request has in all. */
  ghost function Results(m: Bucket, req: Listing.Request): nat {
    |ListedAlone(m, req)| + |ListedUnder(m, req)|
  }

  ghost function FullOf(m: Bucket, req: Listing.Request): seq<Item>
    requires req.token != Some(Listing.Malformed)
  {
    FullListing(req.ListScope(), Ordered(m.Keys), req.StartAfter())
  }

  lemma FullObject(m: Bucket, req: Listing.Request, k: Str)
    requires req.token != Some(Listing.Malformed)
    ensures Object(k) in FullOf(m, req) <==> k in ListedAlone(m, req)
  {
    hide Bytes.Find, Runs, Ordered, Lt, Single;
    var sc, live := req.ListScope(), Select(req.ListScope(), Ordered(m.Keys), req.StartAfter());
    OrderedIs(m.Keys);
    SelectSorted(sc, Ordered(m.Keys), req.StartAfter());
    ItemsOf(sc, live);
    WantedIsLive(req, k);
    if Object(k) in FullOf(m, req) {
      var j :| j in live && sc.Collapse(j) == Object(k);
      CollapsesToItself(req, j, k);
    }
    if k in ListedAlone(m, req) {
      CollapseByFields(req, k);
    }
  }

  lemma OrderedIs(keys: set<Str>)
    ensures StrictlySorted(Ordered(keys)) && forall k :: k in Ordered(keys) <==> k in keys
  {
  }

  lemma FullPrefix(m: Bucket, req: Listing.Request, x: Str)
    requires req.token != Some(Listing.Malformed)
    ensures CommonPrefix(x) in FullOf(m, req) <==> x in ListedUnder(m, req)
  {
    hide Bytes.Find, Runs, Ordered, Lt;
    var sc, live := req.ListScope(), Select(req.ListScope(), Ordered(m.Keys), req.StartAfter());
    OrderedIs(m.Keys);
    SelectSorted(sc, Ordered(m.Keys), req.StartAfter());
    ItemsOf(sc, live);
    if CommonPrefix(x) in FullOf(m, req) {
      var j :| j in live && sc.Collapse(j) == CommonPrefix(x);
      WantedIsLive(req, j);
      CollapseByFields(req, j);
      assert FallsUnder(req, j, x) && x == j[..|x|];
    }
    if x in ListedUnder(m, req) {
      var k, n :| k in m && 0 <= n <= |k| && Wanted(req, k) && FallsUnder(req, k, k[..n]) && x == k[..n];
      WantedIsLive(req, k);
      CollapseByFields(req, k);
    }
  }

  /** The listing without a page limit has as many items as the request has results. */
  lemma ResultsAreFull(m: Bucket, req: Listing.Request)
    requires req.token != Some(Listing.Malformed)
    ensures |FullOf(m, req)| == Results(m, req)
  {
    hide ListedAlone, ListedUnder, Runs, Select, Ordered;
    var full := FullOf(m, req);
    OrderedIs(m.Keys);
    FullListingIncreases(req.ListScope(), Ordered(m.Keys), req.StartAfter());
    ResultsAreItems(full);
    Listing.ObjectKeysElements(full);
    Listing.PrefixNamesSorted(full);
    ObjectKeysSorted(full);
    forall k ensures k in Listing.ObjectKeys(full) <==> k in ListedAlone(m, req) {
      FullObject(m, req, k);
    }
    forall x ensures x in Listing.PrefixNames(full) <==> x in ListedUnder(m, req) {
      FullPrefix(m, req, x);
    }
    SortedSize(Listing.ObjectKeys(full), ListedAlone(m, req));
    SortedSize(Listing.PrefixNames(full), ListedUnder(m, req));
  }

  /** One request of a client that browses an unchanged bucket. */
  lemma OnePage(v: Visit, b: Str, m: Bucket)
    requires Answerable(v, b) && BucketMap(v, b) == m
    ensures var limit, next := PageLimit(v.req), NextOf(v, b);
      if next.Some? then
        limit < |FullOf(m, v.req)|
        && |FullOf(m, v.req)| == limit + |FullListing(v.req.ListScope(), Ordered(m.Keys), next)|
      else |FullOf(m, v.req)| <= limit
  {
    hide Runs, Select, Ordered, PageOf, View, Sound, FullListing;
    AnswerIsPage(v, b);
    OrderedIs(m.Keys);
    PageThenRest(v.req.ListScope(), Ordered(m.Keys), v.req.StartAfter(), v.req.maxKeys);
    PageLimitIs(v.req);
  }

  lemma {:induction false} PagesNeeded(visits: seq<Visit>, b: Str, m: Bucket, limit: nat)
    requires Follows(visits, b) && Unchanged(visits, b, m) && forall v :: v in visits ==> PageLimit(v.req) == limit
    ensures var n := |FullOf(m, visits[0].req)|;
      && (NextOf(visits[|visits| - 1], b).None? <==> n <= limit * |visits|)
      && (|visits| > 1 ==> limit * (|visits| - 1) < n)
    decreases |visits|
  {
    hide Answered, Answerable, NextOf, Runs, Select, Ordered, PageOf, View, Sound, FullListing, BucketMap;
    var v := visits[0];
    assert v in visits;
    OnePage(v, b, m);
    if |visits| > 1 {
      assert forall w :: w in visits[1..] ==> w in visits;
      PagesNeeded(visits[1..], b, m, limit);
      var w := visits[1..][0];
      assert w.req.ListScope() == v.req.ListScope() && w.req.StartAfter() == NextOf(v, b);
      OneMore(limit, |visits| - 1);
      OneMore(limit, |visits| - 2);
    }
  }

  /** On an unchanged bucket with one page size a client that follows the tokens gets its last page
      exactly when the pages so far have room for all results, and not a page later: n results take
      exactly the least number p >= 1 of pages with n <= limit * p. */
  lemma BrowsingEnds(visits: seq<Visit>, b: Str, m: Bucket, limit: nat)
    requires Follows(visits, b) && Unchanged(visits, b, m) && forall v :: v in visits ==> PageLimit(v.req) == limit
    ensures NextOf(visits[|visits| - 1], b).None? <==> Results(m, visits[0].req) <= limit * |visits|
    ensures |visits| > 1 ==> limit * (|visits| - 1) < Results(m, visits[0].req)
  {
    hide Answered, Answerable, NextOf, FullListing, Results;
    PagesNeeded(visits, b, m, limit);
    FollowsEach(visits, b, 0);
    NotMalformed(visits[0], b);
    ResultsAreFull(m, visits[0].req);
  }
}
