/** Pages of a listing and whole sequences of pages: crates/storage/src/list.rs:86-165. */
module Paging {
  import opened Wrappers
  import opened Bytes
  import opened Collapsing

  const PAGE_LIMIT := 1000

  /** `retain`: the elements that satisfy `p`, in order. */
  function Retain(keys: seq<Str>, p: Str -> bool): (r: seq<Str>)
    ensures forall k :: k in r <==> k in keys && p(k)
  {
    if keys == [] then []
    else if p(keys[0]) then [keys[0]] + Retain(keys[1..], p)
    else Retain(keys[1..], p)
  }

  /** The keys above the continuation token that have the request prefix. */
  function Select(sc: Scope, keys: seq<Str>, after: Option<Str>): (r: seq<Str>)
    ensures sc.AllMatch(r)
    ensures forall k :: k in r <==> k in keys && Live(sc, after, k)
  {
    var later := if after.Some? then Retain(keys, k => Lt(after.value, k)) else keys;
    Retain(later, k => sc.Matches(k))
  }

  predicate Live(sc: Scope, after: Option<Str>, k: Str) {
    sc.Matches(k) && (after.Some? ==> Lt(after.value, k))
  }

  /** The keys a page with this token and next token accounts for. */
  predicate InWindow(sc: Scope, after: Option<Str>, next: Option<Str>, k: Str) {
    Live(sc, after, k) && (next.Some? ==> Leq(k, next.value))
  }

  /** `max_keys.unwrap_or(1000).clamp(1, 1000)` */
  function PageSize(maxKeys: Option<nat>): (m: nat)
    ensures 1 <= m <= PAGE_LIMIT
  {
    var asked := if maxKeys.Some? then maxKeys.value else PAGE_LIMIT;
    if asked < 1 then 1 else if asked > PAGE_LIMIT then PAGE_LIMIT else asked
  }

  /** The items of one response; it is truncated exactly when it has a next token. */
  datatype Page = Page(items: seq<Item>, next: Option<Str>)

  function PageOf(sc: Scope, keys: seq<Str>, after: Option<Str>, maxKeys: Option<nat>): Page {
    var runs := Runs(sc, Select(sc, keys, after));
    var m := PageSize(maxKeys);
    if |runs| > m then Page(Items(runs[..m]), Some(runs[m - 1].lastKey)) else Page(Items(runs), None)
  }

  /** One request of a client that follows the tokens: the keys the bucket holds at that
      moment, and the page size asked for. */
  datatype Call = Call(keys: seq<Str>, maxKeys: Option<nat>)

  function Walk(sc: Scope, calls: seq<Call>, after: Option<Str>): (pages: seq<Page>)
    ensures |pages| <= |calls|
  {
    if calls == [] then []
    else
      var page := PageOf(sc, calls[0].keys, after, calls[0].maxKeys);
      [page] + if page.next.Some? then Walk(sc, calls[1..], page.next) else []
  }

  ghost predicate Snapshots(calls: seq<Call>) {
    forall c :: c in calls ==> StrictlySorted(c.keys)
  }

  // ---- Selection ----

  lemma {:induction false} RetainSorted(keys: seq<Str>, p: Str -> bool)
    requires StrictlySorted(keys)
    ensures StrictlySorted(Retain(keys, p))
  {
    if keys != [] {
      RetainSorted(keys[1..], p);
      var rest := Retain(keys[1..], p);
      forall j | 0 <= j < |rest| ensures Lt(keys[0], rest[j]) {
        assert rest[j] in keys[1..];
      }
    }
  }

  lemma SelectSorted(sc: Scope, keys: seq<Str>, after: Option<Str>)
    requires StrictlySorted(keys)
    ensures StrictlySorted(Select(sc, keys, after))
  {
    if after.Some? {
      RetainSorted(keys, k => Lt(after.value, k));
      RetainSorted(Retain(keys, k => Lt(after.value, k)), k => sc.Matches(k));
    } else {
      RetainSorted(keys, k => sc.Matches(k));
    }
  }

  /** A set of keys has one strictly increasing arrangement. */
  lemma {:induction false} SortedByElements(a: seq<Str>, b: seq<Str>)
    requires StrictlySorted(a) && StrictlySorted(b)
    requires forall k :: k in a <==> k in b
    ensures a == b
  {
    HeadIn(a);
    HeadIn(b);
    if a != [] {
      if a[0] != b[0] {
        assert Lt(a[0], b[0]) && Lt(b[0], a[0]);
        LtAsymmetric(a[0], b[0]);
      }
      TailElements(a);
      TailElements(b);
      SortedByElements(a[1..], b[1..]);
    }
  }

  lemma HeadIn(a: seq<Str>)
    ensures a != [] ==> a[0] in a
  {
  }

  lemma TailElements(a: seq<Str>)
    requires StrictlySorted(a) && a != []
    ensures forall k :: k in a[1..] <==> k in a && k != a[0]
  {
    LtIrreflexive(a[0]);
    forall k ensures k in a[1..] <==> k in a && k != a[0] {
      if k in a[1..] {
        var i :| 0 <= i < |a[1..]| && a[1..][i] == k;
        assert Lt(a[0], a[i + 1]);
      }
    }
  }

  /** Cutting the emitted list after `m` items cuts the keys at that item's boundary key. */
  lemma {:induction false} RunsCut(sc: Scope, keys: seq<Str>, m: nat) returns (i: nat)
    requires sc.AllMatch(keys) && 1 <= m <= |Runs(sc, keys)|
    ensures i < |keys| && keys[i] == Runs(sc, keys)[m - 1].lastKey
    ensures Runs(sc, keys[..i + 1]) == Runs(sc, keys)[..m]
    ensures Runs(sc, keys[i + 1..]) == Runs(sc, keys)[m..]
  {
    hide Find;
    var merged := Runs(sc, keys) == Runs(sc, keys[1..]);
    if !merged && m == 1 {
      i := 0;
      assert keys[..1][1..] == [];
    } else {
      var j := RunsCut(sc, keys[1..], if merged then m else m - 1);
      i := j + 1;
      assert keys[..i + 1][1..] == keys[1..][..j + 1];
      assert keys[i + 1..] == keys[1..][j + 1..];
    }
  }

  // ---- One page ----

  /** How a page is cut from the emitted list. */
  lemma PageShape(sc: Scope, keys: seq<Str>, after: Option<Str>, maxKeys: Option<nat>)
    ensures var runs, page, m := Runs(sc, Select(sc, keys, after)), PageOf(sc, keys, after, maxKeys), PageSize(maxKeys);
      && (page.next.Some? <==> |runs| > m)
      && (if page.next.Some? then page.items == Items(runs[..m]) && page.next == Some(runs[m - 1].lastKey)
          else page.items == Items(runs))
  {
    hide Runs, Select;
  }

  /** The keys behind a truncated page and those behind the rest of the listing. */
  lemma PageCut(sc: Scope, keys: seq<Str>, after: Option<Str>, maxKeys: Option<nat>) returns (i: nat)
    requires StrictlySorted(keys) && PageOf(sc, keys, after, maxKeys).next.Some?
    ensures var live, page := Select(sc, keys, after), PageOf(sc, keys, after, maxKeys);
      && StrictlySorted(live) && i < |live| && live[i] == page.next.value
      && page.items == Items(Runs(sc, live[..i + 1]))
      && Select(sc, keys, page.next) == live[i + 1..]
      && Runs(sc, live[i + 1..]) == Runs(sc, live)[PageSize(maxKeys)..]
  {
    hide PageOf, Select, Runs;
    PageShape(sc, keys, after, maxKeys);
    var live, page := Select(sc, keys, after), PageOf(sc, keys, after, maxKeys);
    SelectSorted(sc, keys, after);
    i := RunsCut(sc, live, PageSize(maxKeys));
    var t := page.next.value;
    SplitAt(live, i);
    SelectSorted(sc, keys, page.next);
    forall k ensures k in live[i + 1..] <==> k in Select(sc, keys, page.next) {
      if after.Some? && Lt(t, k) {
        assert t in live;
        LtTransitive(after.value, t, k);
      }
    }
    SortedByElements(live[i + 1..], Select(sc, keys, page.next));
  }

  /** A page lists the item of every key in its window. */
  lemma PageCovers(sc: Scope, keys: seq<Str>, after: Option<Str>, maxKeys: Option<nat>, k: Str)
    requires StrictlySorted(keys)
    requires k in keys && InWindow(sc, after, PageOf(sc, keys, after, maxKeys).next, k)
    ensures sc.Collapse(k) in PageOf(sc, keys, after, maxKeys).items
  {
    hide PageOf, Select, Runs;
    PageShape(sc, keys, after, maxKeys);
    var live := Select(sc, keys, after);
    if PageOf(sc, keys, after, maxKeys).next.Some? {
      var i := PageCut(sc, keys, after, maxKeys);
      SplitAt(live, i);
      ItemsOf(sc, live[..i + 1]);
    } else {
      ItemsOf(sc, live);
    }
  }

  /** A page lists nothing but items of keys in its window. */
  lemma PageSource(sc: Scope, keys: seq<Str>, after: Option<Str>, maxKeys: Option<nat>, item: Item) returns (k: Str)
    requires StrictlySorted(keys) && item in PageOf(sc, keys, after, maxKeys).items
    ensures k in keys && InWindow(sc, after, PageOf(sc, keys, after, maxKeys).next, k) && sc.Collapse(k) == item
  {
    hide PageOf, Select, Runs;
    PageShape(sc, keys, after, maxKeys);
    var live := Select(sc, keys, after);
    if PageOf(sc, keys, after, maxKeys).next.Some? {
      var i := PageCut(sc, keys, after, maxKeys);
      SplitAt(live, i);
      ItemsOf(sc, live[..i + 1]);
      k :| k in live[..i + 1] && sc.Collapse(k) == item;
    } else {
      ItemsOf(sc, live);
      k :| k in live && sc.Collapse(k) == item;
    }
  }

  /** The next token is a key of the bucket above the token asked with, and it ends the run
      of the page's last item: no key above it is listed as an item of the page. */
  lemma PageToken(sc: Scope, keys: seq<Str>, after: Option<Str>, maxKeys: Option<nat>)
    requires StrictlySorted(keys) && PageOf(sc, keys, after, maxKeys).next.Some?
    ensures var page := PageOf(sc, keys, after, maxKeys);
      && page.next.value in keys
      && Live(sc, after, page.next.value)
      && |page.items| == PageSize(maxKeys)
      && page.items[|page.items| - 1] == sc.Collapse(page.next.value)
      && forall k :: k in keys && sc.Matches(k) && Lt(page.next.value, k) ==> sc.Collapse(k) !in page.items
  {
    hide PageOf, Select, Runs, Lt, Find;
    PageShape(sc, keys, after, maxKeys);
    var live, page := Select(sc, keys, after), PageOf(sc, keys, after, maxKeys);
    RunsItems(sc, live);
    forall k | k in keys && sc.Matches(k) && Lt(page.next.value, k) ensures sc.Collapse(k) !in page.items {
      WindowEndsRun(sc, keys, after, maxKeys, k);
    }
  }

  lemma WindowEndsRun(sc: Scope, keys: seq<Str>, after: Option<Str>, maxKeys: Option<nat>, k: Str)
    requires StrictlySorted(keys) && PageOf(sc, keys, after, maxKeys).next.Some?
    requires k in keys && sc.Matches(k) && Lt(PageOf(sc, keys, after, maxKeys).next.value, k)
    ensures sc.Collapse(k) !in PageOf(sc, keys, after, maxKeys).items
  {
    hide PageOf, Select, Runs, Lt, Find;
    PageShape(sc, keys, after, maxKeys);
    var live, page := Select(sc, keys, after), PageOf(sc, keys, after, maxKeys);
    var t := page.next.value;
    SelectSorted(sc, keys, after);
    RunsItems(sc, live);
    if after.Some? {
      LtTransitive(after.value, t, k);
    }
    var runs := Runs(sc, live);
    forall p | 0 <= p < |page.items| ensures page.items[p] != sc.Collapse(k) {
      assert page.items[p] == runs[p].item;
      if runs[p].item == sc.Collapse(k) {
        LastKeyGreatest(sc, live, p, k);
        BoundaryOrder(sc, live, p, |page.items| - 1);
        LeqLtTransitive(runs[p].lastKey, t, k);
        LtAsymmetric(runs[p].lastKey, k);
      }
    }
  }

  lemma BoundaryOrder(sc: Scope, keys: seq<Str>, p: nat, q: nat)
    requires sc.AllMatch(keys) && StrictlySorted(keys) && p <= q < |Runs(sc, keys)|
    ensures Leq(Runs(sc, keys)[p].lastKey, Runs(sc, keys)[q].lastKey)
  {
    RunsIncrease(sc, keys);
  }

  lemma SplitAt(a: seq<Str>, i: nat)
    requires StrictlySorted(a) && i < |a|
    ensures StrictlySorted(a[i + 1..])
    ensures forall k :: k in a[..i + 1] <==> k in a && Leq(k, a[i])
    ensures forall k :: k in a[i + 1..] <==> k in a && Lt(a[i], k)
  {
    forall j | 0 <= j < |a|
      ensures j <= i <==> Leq(a[j], a[i])
      ensures j > i <==> Lt(a[i], a[j])
    {
      LtIrreflexive(a[i]);
      if j < i {
        LtAsymmetric(a[j], a[i]);
      } else if j > i {
        LtAsymmetric(a[i], a[j]);
      }
    }
    forall k
      ensures k in a[..i + 1] <==> k in a && Leq(k, a[i])
      ensures k in a[i + 1..] <==> k in a && Lt(a[i], k)
    {
      if k in a {
        var j :| 0 <= j < |a| && a[j] == k;
        assert j <= i ==> a[..i + 1][j] == k;
        assert j > i ==> a[i + 1..][j - i - 1] == k;
      }
    }
  }

  lemma ItemsOf(sc: Scope, keys: seq<Str>)
    requires sc.AllMatch(keys)
    ensures forall k :: k in keys ==> sc.Collapse(k) in Items(Runs(sc, keys))
    ensures forall item :: item in Items(Runs(sc, keys)) ==> exists k :: k in keys && sc.Collapse(k) == item
  {
    RunsItems(sc, keys);
    forall item | item in Items(Runs(sc, keys)) ensures exists k :: k in keys && sc.Collapse(k) == item {
      var i :| 0 <= i < |Items(Runs(sc, keys))| && Items(Runs(sc, keys))[i] == item;
      assert Runs(sc, keys)[i].lastKey in keys;
    }
  }

  // ---- Pages of a bucket that changes in between ----

  /** The token a page is asked with: the next token of the page before. */
  function TokenBefore(pages: seq<Page>, after: Option<Str>, i: nat): Option<Str>
    requires i < |pages|
  {
    if i == 0 then after else pages[i - 1].next
  }

  lemma {:induction false} WalkPages(sc: Scope, calls: seq<Call>, after: Option<Str>, i: nat)
    requires i < |Walk(sc, calls, after)|
    ensures var pages := Walk(sc, calls, after);
      && pages[i] == PageOf(sc, calls[i].keys, TokenBefore(pages, after, i), calls[i].maxKeys)
      && (i + 1 < |pages| ==> pages[i].next.Some?)
      && (i + 1 == |pages| < |calls| ==> pages[i].next.None?)
  {
    hide PageOf;
    if i > 0 {
      var page := PageOf(sc, calls[0].keys, after, calls[0].maxKeys);
      WalkPages(sc, calls[1..], page.next, i - 1);
    }
  }

  /** Tokens strictly increase along the walk, whatever happens to the bucket. */
  lemma {:induction false} TokensIncrease(sc: Scope, calls: seq<Call>, after: Option<Str>, i: nat, j: nat)
    requires Snapshots(calls) && i < j < |Walk(sc, calls, after)|
    ensures var pages := Walk(sc, calls, after);
      pages[i].next.Some? && (pages[j].next.Some? ==> Lt(pages[i].next.value, pages[j].next.value))
  {
    hide PageOf;
    var pages := Walk(sc, calls, after);
    WalkPages(sc, calls, after, j - 1);
    if i < j - 1 {
      TokensIncrease(sc, calls, after, i, j - 1);
    }
    if pages[j].next.Some? {
      WalkPages(sc, calls, after, j);
      PageToken(sc, calls[j].keys, pages[j - 1].next, calls[j].maxKeys);
      if i < j - 1 {
        LtTransitive(pages[i].next.value, pages[j - 1].next.value, pages[j].next.value);
      }
    }
  }

  /** Every item on a later page comes from a key above the token of any earlier one. */
  lemma LaterKeysAbove(sc: Scope, calls: seq<Call>, after: Option<Str>, i: nat, j: nat, item: Item) returns (k: Str)
    requires Snapshots(calls) && i < j < |Walk(sc, calls, after)|
    requires item in Walk(sc, calls, after)[j].items
    ensures var pages := Walk(sc, calls, after);
      && pages[i].next.Some? && k in calls[j].keys && sc.Matches(k)
      && sc.Collapse(k) == item && Lt(pages[i].next.value, k)
  {
    hide PageOf;
    var pages := Walk(sc, calls, after);
    WalkPages(sc, calls, after, j - 1);
    WalkPages(sc, calls, after, j);
    k := PageSource(sc, calls[j].keys, pages[j - 1].next, calls[j].maxKeys, item);
    if i < j - 1 {
      TokensIncrease(sc, calls, after, i, j - 1);
      LtTransitive(pages[i].next.value, pages[j - 1].next.value, k);
    }
  }

  /** No item comes back on a later page, except a CommonPrefix that was the last item of
      the earlier page and has gained a key since. */
  lemma NoItemTwice(sc: Scope, calls: seq<Call>, after: Option<Str>, i: nat, j: nat, item: Item)
    requires Snapshots(calls) && i < j < |Walk(sc, calls, after)|
    requires item in Walk(sc, calls, after)[i].items && item in Walk(sc, calls, after)[j].items
    ensures item.CommonPrefix?
    ensures var items := Walk(sc, calls, after)[i].items; items[|items| - 1] == item
    ensures exists k :: k in calls[j].keys && k !in calls[i].keys && sc.Matches(k) && sc.Collapse(k) == item
  {
    hide PageOf;
    var pages := Walk(sc, calls, after);
    var before := TokenBefore(pages, after, i);
    WalkPages(sc, calls, after, i);
    var k := PageSource(sc, calls[i].keys, before, calls[i].maxKeys, item);
    var k' := LaterKeysAbove(sc, calls, after, i, j, item);
    var t := pages[i].next.value;
    PageToken(sc, calls[i].keys, before, calls[i].maxKeys);
    RunsContiguous(sc, k, t, k');
    LtAsymmetric(t, k');
    assert k' !in calls[i].keys;
  }

  /** Coverage: once a page is not truncated, every matching key that every snapshot held is
      listed, as an object or through its CommonPrefix. */
  lemma {:induction false} EveryKeyCovered(sc: Scope, calls: seq<Call>, after: Option<Str>, k: Str) returns (i: nat)
    requires Snapshots(calls)
    requires var pages := Walk(sc, calls, after); pages != [] && pages[|pages| - 1].next.None?
    requires Live(sc, after, k)
    requires forall c :: c in calls ==> k in c.keys
    ensures i < |Walk(sc, calls, after)| && sc.Collapse(k) in Walk(sc, calls, after)[i].items
  {
    hide PageOf;
    var page := PageOf(sc, calls[0].keys, after, calls[0].maxKeys);
    assert calls[0] in calls;
    if page.next.None? || Leq(k, page.next.value) {
      PageCovers(sc, calls[0].keys, after, calls[0].maxKeys, k);
      i := 0;
    } else {
      LtTotal(k, page.next.value);
      i := EveryKeyCovered(sc, calls[1..], page.next, k);
      i := i + 1;
    }
  }

  // ---- Pages of a bucket that stays as it is ----

  function Concat(pages: seq<Page>): seq<Item> {
    if pages == [] then [] else pages[0].items + Concat(pages[1..])
  }

  /** The listing without a page limit. */
  function FullListing(sc: Scope, keys: seq<Str>, after: Option<Str>): seq<Item> {
    Items(Runs(sc, Select(sc, keys, after)))
  }

  ghost predicate SameBucket(calls: seq<Call>, keys: seq<Str>) {
    StrictlySorted(keys) && forall c :: c in calls ==> c.keys == keys
  }

  lemma PageThenRest(sc: Scope, keys: seq<Str>, after: Option<Str>, maxKeys: Option<nat>)
    requires StrictlySorted(keys)
    ensures var page, full := PageOf(sc, keys, after, maxKeys), FullListing(sc, keys, after);
      if page.next.Some? then
        |page.items| == PageSize(maxKeys) < |full| && full == page.items + FullListing(sc, keys, page.next)
      else
        |full| <= PageSize(maxKeys) && full == page.items
  {
    hide PageOf, Select, Runs;
    PageShape(sc, keys, after, maxKeys);
    var page, full := PageOf(sc, keys, after, maxKeys), FullListing(sc, keys, after);
    if page.next.Some? {
      var i := PageCut(sc, keys, after, maxKeys);
      var live := Select(sc, keys, after);
      var runs, m := Runs(sc, live), PageSize(maxKeys);
      assert |runs| == |full|;
      assert page.items == Items(runs[..m]);
      assert FullListing(sc, keys, page.next) == Items(runs[m..]);
      assert Items(runs) == Items(runs[..m]) + Items(runs[m..]);
    }
  }

  /** Nothing repeats in a full listing, and its names increase. */
  lemma FullListingIncreases(sc: Scope, keys: seq<Str>, after: Option<Str>)
    requires StrictlySorted(keys)
    ensures Increasing(FullListing(sc, keys, after))
  {
    SelectSorted(sc, keys, after);
    ItemsIncrease(sc, Select(sc, keys, after));
  }

  lemma PrefixOfIncreasing(items: seq<Item>, n: nat)
    requires Increasing(items) && n <= |items|
    ensures Increasing(items[..n])
  {
  }

  /** A page repeats nothing, and its names increase. */
  lemma PageIncreases(sc: Scope, keys: seq<Str>, after: Option<Str>, maxKeys: Option<nat>)
    requires StrictlySorted(keys)
    ensures Increasing(PageOf(sc, keys, after, maxKeys).items)
  {
    hide PageOf, FullListing;
    FullListingIncreases(sc, keys, after);
    PageThenRest(sc, keys, after, maxKeys);
    var page, full := PageOf(sc, keys, after, maxKeys), FullListing(sc, keys, after);
    assert full[..|page.items|] == page.items;
    PrefixOfIncreasing(full, |page.items|);
  }

  /** Concatenated pages, of any sizes, are a prefix of the full listing, and all of it
      exactly when the last page is not truncated. */
  lemma {:induction false} PagesConcatenate(sc: Scope, keys: seq<Str>, calls: seq<Call>, after: Option<Str>)
    requires SameBucket(calls, keys)
    ensures var pages, full := Walk(sc, calls, after), FullListing(sc, keys, after);
      && Concat(pages) <= full
      && (pages != [] ==> (pages[|pages| - 1].next.None? <==> Concat(pages) == full))
  {
    hide PageOf, FullListing;
    if calls != [] {
      assert calls[0] in calls;
      var page := PageOf(sc, keys, after, calls[0].maxKeys);
      PageThenRest(sc, keys, after, calls[0].maxKeys);
      var pages := Walk(sc, calls, after);
      if page.next.Some? {
        PagesConcatenate(sc, keys, calls[1..], page.next);
        assert pages[1..] == Walk(sc, calls[1..], page.next);
      } else {
        assert pages[1..] == [];
      }
    }
  }

  /** With one page size m, n items take exactly max(1, ceil(n / m)) pages p: the least
      p >= 1 with n <= m * p. */
  lemma {:induction false} PageCount(sc: Scope, keys: seq<Str>, calls: seq<Call>, after: Option<Str>, m: nat)
    requires SameBucket(calls, keys)
    requires forall c :: c in calls ==> PageSize(c.maxKeys) == m
    requires calls != [] && |FullListing(sc, keys, after)| <= m * |calls|
    ensures var pages, n := Walk(sc, calls, after), |FullListing(sc, keys, after)|;
      && pages != [] && pages[|pages| - 1].next.None?
      && n <= m * |pages|
      && (|pages| > 1 ==> m * (|pages| - 1) < n)
  {
    hide PageOf, FullListing;
    assert calls[0] in calls;
    PageThenRest(sc, keys, after, calls[0].maxKeys);
    var page := PageOf(sc, keys, after, calls[0].maxKeys);
    if page.next.Some? {
      OneMore(m, |calls| - 1);
      PageCount(sc, keys, calls[1..], page.next, m);
      var rest := |Walk(sc, calls[1..], page.next)|;
      OneMore(m, rest);
      OneMore(m, rest - 1);
    }
  }

  lemma OneMore(m: nat, p: nat)
    ensures m * (p + 1) == m * p + m
  {
  }
}
