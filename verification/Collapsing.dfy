/** What ListObjectsV2 returns for an ordered list of keys: direct objects, and runs of keys
    collapsed into CommonPrefixes. Follows crates/storage/src/list.rs:97-151. */
module Collapsing {
  import opened Wrappers
  import opened Bytes

  datatype Item = Object(key: Str) | CommonPrefix(prefix: Str) {
    /** The string the client sees. */
    function Name(): Str {
      if Object? then key else prefix
    }
  }

  /** A result with the greatest key that contributed to it. */
  datatype Emitted = Emitted(item: Item, lastKey: Str)

  /** The prefix and delimiter of a request. */
  datatype Scope = Scope(prefix: Str, delimiter: Option<Str>) {
    predicate Matches(key: Str) {
      prefix <= key
    }

    /** The item a key is listed as. */
    function Collapse(key: Str): Item
      requires Matches(key)
    {
      var remainder := key[|prefix|..];
      if delimiter.Some? && Find(remainder, delimiter.value).Some? then
        CommonPrefix(prefix + remainder[..Find(remainder, delimiter.value).value + |delimiter.value|])
      else
        Object(key)
    }

    /** `x` is the request prefix followed by one segment, whose only delimiter ends it. */
    predicate IsCommonPrefix(x: Str) {
      && delimiter.Some?
      && prefix <= x
      && |prefix| + |delimiter.value| <= |x|
      && Find(x[|prefix|..], delimiter.value) == Some(|x| - |prefix| - |delimiter.value|)
    }

    predicate AllMatch(keys: seq<Str>) {
      forall k :: k in keys ==> Matches(k)
    }
  }

  /** The emitted list, run by run from the right: a key in the same CommonPrefix as its
      successor joins that run, any other key starts an item of its own. */
  function Runs(sc: Scope, keys: seq<Str>): seq<Emitted>
    requires sc.AllMatch(keys)
  {
    if keys == [] then []
    else
      var rest := Runs(sc, keys[1..]);
      var item := sc.Collapse(keys[0]);
      if rest != [] && item.CommonPrefix? && rest[0].item == item then rest
      else [Emitted(item, keys[0])] + rest
  }

  function Items(runs: seq<Emitted>): (r: seq<Item>)
    ensures |r| == |runs|
    ensures forall i :: 0 <= i < |r| ==> r[i] == runs[i].item
  {
    seq(|runs|, i requires 0 <= i < |runs| => runs[i].item)
  }

  /** One step of the source's loop: extend the trailing item, or push a new one. */
  function Push(sc: Scope, emitted: seq<Emitted>, key: Str): seq<Emitted>
    requires sc.Matches(key)
  {
    var item := sc.Collapse(key);
    if emitted != [] && item.CommonPrefix? && emitted[|emitted| - 1].item == item then
      emitted[|emitted| - 1 := Emitted(item, key)]
    else
      emitted + [Emitted(item, key)]
  }

  lemma {:induction false} RunsSnoc(sc: Scope, keys: seq<Str>, key: Str)
    requires sc.AllMatch(keys) && sc.Matches(key)
    ensures Runs(sc, keys + [key]) == Push(sc, Runs(sc, keys), key)
  {
    if keys == [] {
      assert ([key])[1..] == [];
    } else {
      assert (keys + [key])[1..] == keys[1..] + [key];
      RunsSnoc(sc, keys[1..], key);
    }
  }

  /** The loop over the sorted keys, with its in-place update of the last element. */
  method DeriveItems(sc: Scope, keys: seq<Str>) returns (emitted: seq<Emitted>)
    requires sc.AllMatch(keys)
    ensures emitted == Runs(sc, keys)
  {
    hide Find;
    emitted := [];
    for i := 0 to |keys|
      invariant emitted == Runs(sc, keys[..i])
    {
      var key := keys[i];
      RunsSnoc(sc, keys[..i], key);
      assert keys[..i + 1] == keys[..i] + [key];
      if sc.delimiter.Some? {
        var delimiter := sc.delimiter.value;
        var remainder := key[|sc.prefix|..];
        var pos := Find(remainder, delimiter);
        if pos.Some? {
          var cp := sc.prefix + remainder[..pos.value + |delimiter|];
          if |emitted| > 0 && emitted[|emitted| - 1].item == CommonPrefix(cp) {
            emitted := emitted[|emitted| - 1 := emitted[|emitted| - 1].(lastKey := key)];
          } else {
            emitted := emitted + [Emitted(CommonPrefix(cp), key)];
          }
          continue;
        }
      }
      emitted := emitted + [Emitted(Object(key), key)];
    }
    assert keys[..|keys|] == keys;
  }

  // ---- CommonPrefixes are intervals of keys ----

  lemma CollapseIsCommonPrefix(sc: Scope, key: Str)
    requires sc.Matches(key) && sc.Collapse(key).CommonPrefix?
    ensures sc.IsCommonPrefix(sc.Collapse(key).prefix) && sc.Collapse(key).prefix <= key
  {
    var x := sc.Collapse(key).prefix;
    var remainder := key[|sc.prefix|..];
    assert x[|sc.prefix|..] == remainder[..Find(remainder, sc.delimiter.value).value + |sc.delimiter.value|];
    FindInPrefix(remainder, x[|sc.prefix|..], sc.delimiter.value);
  }

  /** A key starts with a CommonPrefix exactly when it collapses to it. */
  lemma StartsWithIffCollapses(sc: Scope, x: Str, key: Str)
    requires sc.Matches(key) && sc.IsCommonPrefix(x)
    ensures x <= key <==> sc.Collapse(key) == CommonPrefix(x)
  {
    hide Find;
    if sc.Collapse(key) == CommonPrefix(x) {
      CollapseIsCommonPrefix(sc, key);
    }
    if x <= key {
      var segment := x[|sc.prefix|..];
      assert segment <= key[|sc.prefix|..];
      assert segment[..Find(segment, sc.delimiter.value).value + |sc.delimiter.value|] == segment;
      FindInPrefix(segment, key[|sc.prefix|..], sc.delimiter.value);
      assert x == sc.prefix + segment;
    }
  }

  /** Two CommonPrefixes of one request are equal as soon as one starts with the other. */
  lemma CommonPrefixesPrefixFree(sc: Scope, x: Str, y: Str)
    requires sc.IsCommonPrefix(x) && sc.IsCommonPrefix(y) && x <= y
    ensures x == y
  {
    StartsWithIffCollapses(sc, x, y);
    StartsWithIffCollapses(sc, y, y);
  }

  /** Between keys of different items, the order of the keys is the order of the names. */
  lemma NamesFollowKeys(sc: Scope, k: Str, k': Str)
    requires sc.Matches(k) && sc.Matches(k') && Lt(k, k') && sc.Collapse(k) != sc.Collapse(k')
    ensures Lt(sc.Collapse(k).Name(), sc.Collapse(k').Name())
  {
    var x, y := sc.Collapse(k).Name(), sc.Collapse(k').Name();
    assert x <= k by {
      if sc.Collapse(k).CommonPrefix? {
        CollapseIsCommonPrefix(sc, k);
      }
    }
    PrefixLeq(x, k);
    assert Lt(k, y) by {
      if sc.Collapse(k').CommonPrefix? {
        CollapseIsCommonPrefix(sc, k');
        StartsWithIffCollapses(sc, y, k);
        LtTotal(k, y);
        if Lt(y, k) {
          PrefixConvex(y, y, k, k');
        }
      }
    }
    if x != k {
      LtTransitive(x, k, y);
    }
  }

  /** Keys that lie between two keys of a CommonPrefix belong to it: runs are contiguous. */
  lemma RunsContiguous(sc: Scope, a: Str, b: Str, c: Str)
    requires sc.Matches(a) && sc.Matches(b) && sc.Matches(c)
    requires Leq(a, b) && Leq(b, c) && sc.Collapse(a) == sc.Collapse(c)
    ensures sc.Collapse(b) == sc.Collapse(a)
  {
    var item := sc.Collapse(a);
    if item.CommonPrefix? {
      CollapseIsCommonPrefix(sc, a);
      CollapseIsCommonPrefix(sc, c);
      PrefixConvex(item.prefix, a, b, c);
      StartsWithIffCollapses(sc, item.prefix, b);
    } else if a != b {
      assert a == c;
      LtIrreflexive(a);
      LtTransitive(a, b, a);
    }
  }

  // ---- Meaning of the emitted list ----

  lemma {:induction false} RunsItems(sc: Scope, keys: seq<Str>)
    requires sc.AllMatch(keys)
    ensures forall i :: 0 <= i < |Runs(sc, keys)| ==>
      var e := Runs(sc, keys)[i]; e.lastKey in keys && sc.Collapse(e.lastKey) == e.item
    ensures forall k :: k in keys ==> sc.Collapse(k) in Items(Runs(sc, keys))
    ensures keys != [] ==> Runs(sc, keys) != [] && Runs(sc, keys)[0].item == sc.Collapse(keys[0])
  {
    if keys != [] {
      RunsItems(sc, keys[1..]);
      var runs, rest := Runs(sc, keys), Runs(sc, keys[1..]);
      if runs == rest {
        assert Items(runs)[0] == sc.Collapse(keys[0]);
      } else {
        assert Items(runs) == [sc.Collapse(keys[0])] + Items(rest);
      }
      forall k | k in keys ensures sc.Collapse(k) in Items(runs) {
        if k != keys[0] {
          assert k in keys[1..];
        }
      }
    }
  }

  /** Names and boundary keys both increase strictly. */
  ghost predicate RunsOrdered(runs: seq<Emitted>) {
    forall i, j :: 0 <= i < j < |runs| ==> Precedes(runs[i], runs[j])
  }

  predicate Precedes(e: Emitted, f: Emitted) {
    Lt(e.item.Name(), f.item.Name()) && Lt(e.lastKey, f.lastKey)
  }

  lemma {:induction false} RunsIncrease(sc: Scope, keys: seq<Str>)
    requires sc.AllMatch(keys) && StrictlySorted(keys)
    ensures RunsOrdered(Runs(sc, keys))
  {
    hide Precedes, Find;
    if keys != [] {
      RunsIncrease(sc, keys[1..]);
      var runs, rest := Runs(sc, keys), Runs(sc, keys[1..]);
      if runs != rest {
        assert runs == [runs[0]] + rest;
        forall j | 0 <= j < |rest| ensures Precedes(runs[0], rest[j]) {
          HeadFirst(sc, keys, j);
        }
        PrependOrdered(runs[0], rest);
      }
    }
  }

  lemma PrependOrdered(e: Emitted, rest: seq<Emitted>)
    requires RunsOrdered(rest) && forall j :: 0 <= j < |rest| ==> Precedes(e, rest[j])
    ensures RunsOrdered([e] + rest)
  {
    hide Precedes;
  }

  /** Without repetition, and in increasing order of names. */
  ghost predicate Increasing(items: seq<Item>) {
    forall i, j :: 0 <= i < j < |items| ==> items[i] != items[j] && Lt(items[i].Name(), items[j].Name())
  }

  /** An item started by the first key comes before every item of the other keys. */
  lemma HeadFirst(sc: Scope, keys: seq<Str>, j: nat)
    requires sc.AllMatch(keys) && StrictlySorted(keys) && keys != []
    requires Runs(sc, keys) != Runs(sc, keys[1..]) && j < |Runs(sc, keys[1..])|
    ensures Precedes(Emitted(sc.Collapse(keys[0]), keys[0]), Runs(sc, keys[1..])[j])
  {
    var last := Runs(sc, keys[1..])[j].lastKey;
    RunsItems(sc, keys[1..]);
    assert last in keys[1..];
    var p :| 0 <= p < |keys[1..]| && keys[1..][p] == last;
    assert Lt(keys[0], keys[p + 1]);
    LtIrreflexive(keys[0]);
    HeadAlone(sc, keys, last);
    NamesFollowKeys(sc, keys[0], last);
  }

  lemma ItemsIncrease(sc: Scope, keys: seq<Str>)
    requires sc.AllMatch(keys) && StrictlySorted(keys)
    ensures Increasing(Items(Runs(sc, keys)))
  {
    RunsIncrease(sc, keys);
    forall x: Str {
      LtIrreflexive(x);
    }
  }

  /** Declarative meaning. Direct objects are the keys without a delimiter after the prefix;
      CommonPrefixes are the one-segment strings that some key starts with; neither repeats;
      and each boundary key is the greatest key of its item. */
  lemma RunsMeaning(sc: Scope, keys: seq<Str>)
    requires sc.AllMatch(keys) && StrictlySorted(keys)
    ensures var runs := Runs(sc, keys);
      && (forall k :: Object(k) in Items(runs) <==>
           k in keys && (sc.delimiter.Some? ==> Find(k[|sc.prefix|..], sc.delimiter.value).None?))
      && (forall x :: CommonPrefix(x) in Items(runs) <==>
           sc.IsCommonPrefix(x) && exists k :: k in keys && x <= k)
      && (forall i, j :: 0 <= i < j < |runs| ==> runs[i].item != runs[j].item)
      && (forall i :: 0 <= i < |runs| ==>
           && runs[i].lastKey in keys
           && sc.Collapse(runs[i].lastKey) == runs[i].item
           && forall k :: k in keys && sc.Collapse(k) == runs[i].item ==> Leq(k, runs[i].lastKey))
  {
    var runs := Runs(sc, keys);
    RunsItems(sc, keys);
    ItemsIncrease(sc, keys);
    assert forall i :: 0 <= i < |runs| ==> Items(runs)[i] == runs[i].item;
    forall k ensures Object(k) in Items(runs) <==> k in keys && sc.Collapse(k) == Object(k) {
      if Object(k) in Items(runs) {
        var i :| 0 <= i < |runs| && Items(runs)[i] == Object(k);
        assert sc.Collapse(runs[i].lastKey) == Object(k);
      }
    }
    forall x ensures CommonPrefix(x) in Items(runs) <==>
        sc.IsCommonPrefix(x) && exists k :: k in keys && x <= k
    {
      CommonPrefixListed(sc, keys, x);
    }
    forall i, k | 0 <= i < |runs| && k in keys && sc.Collapse(k) == runs[i].item
      ensures Leq(k, runs[i].lastKey)
    {
      LastKeyGreatest(sc, keys, i, k);
    }
  }

  lemma CommonPrefixListed(sc: Scope, keys: seq<Str>, x: Str)
    requires sc.AllMatch(keys)
    ensures CommonPrefix(x) in Items(Runs(sc, keys)) <==>
      sc.IsCommonPrefix(x) && exists k :: k in keys && x <= k
  {
    var runs := Runs(sc, keys);
    RunsItems(sc, keys);
    if CommonPrefix(x) in Items(runs) {
      var i :| 0 <= i < |runs| && Items(runs)[i] == CommonPrefix(x);
      CollapseIsCommonPrefix(sc, runs[i].lastKey);
    }
    if sc.IsCommonPrefix(x) && exists k :: k in keys && x <= k {
      var k :| k in keys && x <= k;
      StartsWithIffCollapses(sc, x, k);
    }
  }

  /** A key that starts an item without joining a run shares that item with no later key. */
  lemma HeadAlone(sc: Scope, keys: seq<Str>, k: Str)
    requires sc.AllMatch(keys) && StrictlySorted(keys)
    requires k in keys && k != keys[0] && Runs(sc, keys) != Runs(sc, keys[1..])
    ensures sc.Collapse(k) != sc.Collapse(keys[0])
  {
    var p :| 0 <= p < |keys| && keys[p] == k;
    assert Leq(keys[0], keys[1]) && Leq(keys[1], k);
    RunsItems(sc, keys[1..]);
    if sc.Collapse(k) == sc.Collapse(keys[0]) {
      RunsContiguous(sc, keys[0], keys[1], k);
    }
  }

  lemma {:induction false} LastKeyGreatest(sc: Scope, keys: seq<Str>, i: nat, k: Str)
    requires sc.AllMatch(keys) && StrictlySorted(keys)
    requires i < |Runs(sc, keys)| && k in keys && sc.Collapse(k) == Runs(sc, keys)[i].item
    ensures Leq(k, Runs(sc, keys)[i].lastKey)
  {
    if k == keys[0] {
      RunsItems(sc, keys);
      var p :| 0 <= p < |keys| && keys[p] == Runs(sc, keys)[i].lastKey;
      assert p > 0 ==> Lt(keys[0], keys[p]);
    } else {
      assert k in keys[1..];
      if Runs(sc, keys) == Runs(sc, keys[1..]) {
        LastKeyGreatest(sc, keys[1..], i, k);
      } else {
        HeadAlone(sc, keys, k);
        LastKeyGreatest(sc, keys[1..], i - 1, k);
      }
    }
  }
}
