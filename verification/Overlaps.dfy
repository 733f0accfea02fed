/** Schedules of overlapping requests: what the conditions of the other results exclude. */
module Overlaps {
  import opened Wrappers
  import opened Bytes
  import opened KeyEncoding
  import opened Meta
  import opened DiskOps
  import opened Interleaving
  import opened Agreement
  import opened Alone
  import ObjectMap

  /** A process takes steps without a pause; `tmps` are the names tempfile would draw. */
  predicate Takes(dir: Dir, p: Proc, tmps: seq<Str>, dir': Dir, p': Proc)
    decreases |tmps|
  {
    if tmps == [] then dir == dir' && p == p'
    else Fresh(dir, tmps[0]) && var (d, q) := Step(dir, p, tmps[0]); Takes(d, q, tmps[1..], dir', p')
  }

  lemma TakesOne(dir: Dir, p: Proc, tmp: Str)
    requires Fresh(dir, tmp)
    ensures Takes(dir, p, [tmp], Step(dir, p, tmp).0, Step(dir, p, tmp).1)
  {
    hide Step, IsTempName;
  }

  lemma {:induction false} TakesBoth(
      dir: Dir, p: Proc, a: seq<Str>, dir1: Dir, p1: Proc, b: seq<Str>, dir2: Dir, p2: Proc)
    requires Takes(dir, p, a, dir1, p1) && Takes(dir1, p1, b, dir2, p2)
    ensures Takes(dir, p, a + b, dir2, p2)
    decreases |a|
  {
    hide Step, IsTempName;
    if a == [] {
      assert a + b == b;
    } else {
      var (d, q) := Step(dir, p, a[0]);
      TakesBoth(d, q, a[1..], dir1, p1, b, dir2, p2);
      assert (a + b)[1..] == a[1..] + b;
    }
  }

  function Advances(id: nat, tmps: seq<Str>): seq<Action> {
    if tmps == [] then [] else [Advance(id, tmps[0])] + Advances(id, tmps[1..])
  }

  ghost predicate Leads(s: State, acts: seq<Action>, s': State) {
    Possible(s, acts) && Exec(s, acts) == s'
  }

  lemma {:induction false} LeadsOn(s: State, a: seq<Action>, s1: State, b: seq<Action>, s2: State)
    requires Leads(s, a, s1) && Leads(s1, b, s2)
    ensures Leads(s, a + b, s2)
    decreases |a|
  {
    hide Enabled, Next;
    if a == [] {
      assert a + b == b;
    } else {
      LeadsOn(Next(s, a[0]), a[1..], s1, b, s2);
      assert (a + b)[1..] == a[1..] + b;
    }
  }

  lemma {:induction false} TakesLeads(s: State, id: nat, tmps: seq<Str>, dir': Dir, p': Proc)
    requires id in s.procs && Takes(s.dir, s.procs[id], tmps, dir', p')
    ensures Leads(s, Advances(id, tmps), State(dir', s.procs[id := p']))
    decreases |tmps|
  {
    hide Step, IsTempName;
    if tmps == [] {
      assert s.procs[id := p'] == s.procs;
    } else {
      var (d, q) := Step(s.dir, s.procs[id], tmps[0]);
      var s1 := State(d, s.procs[id := q]);
      TakesLeads(s1, id, tmps[1..], dir', p');
      assert s1.procs[id := p'] == s.procs[id := p'];
    }
  }

  // ---- Stretches of a put ----

  predicate TwoTemps(dir: Dir, t: Str, u: Str) {
    Fresh(dir, t) && Fresh(dir, u) && t != u
  }

  function Times(u: Str, n: nat): seq<Str> {
    if n == 0 then [] else [u] + Times(u, n - 1)
  }

  /** From chunk `i` on, up to and with the rename of the body. */
  lemma {:induction false} WritesBody(dir: Dir, put: PutReq, t: Str, u: Str, i: nat)
    requires HasObjects(dir) && TwoTemps(dir, t, u) && put.Named() && put.name != []
    requires i <= |put.chunks| && Received(put.chunks[..i]).Some? && Received(put.chunks).Some?
    ensures Takes(SetObjects(dir, Objects(dir)[t := Received(put.chunks[..i]).value]), PutWrite(put, t, i),
                  Times(u, |put.chunks| - i + 1),
                  SetObjects(dir, Objects(dir)[put.name := Received(put.chunks).value]), MetaCreate(put))
    decreases |put.chunks| - i
  {
    hide EncodeKey, IsTempName, Received;
    NamesApart(put.key, t);
    var files, sofar := Objects(dir), Received(put.chunks[..i]).value;
    if i < |put.chunks| {
      if Received(put.chunks[..i + 1]).None? {
        BrokenStays(put.chunks, i + 1);
      }
      ReceivedSnoc(put.chunks, i);
      WritesBody(dir, put, t, u, i + 1);
      var more := sofar + put.chunks[i].bytes;
      assert files[t := sofar][t := more] == files[t := more];
    } else {
      assert put.chunks[..i] == put.chunks;
      assert Rename(files[t := sofar], t, put.name) == files[put.name := sofar];
      assert Times(u, 1)[1..] == [];
    }
  }

  function BodyTemps(put: PutReq, t: Str, u: Str): seq<Str> {
    [t, t] + Times(u, |put.chunks| + 1)
  }

  /** A put up to the rename of its body, whatever the chunks it arrives in. */
  lemma PlacesBody(dir: Dir, put: PutReq, t: Str, u: Str)
    requires HasObjects(dir) && TwoTemps(dir, t, u) && put.Named() && put.name != [] && Received(put.chunks).Some?
    ensures Takes(dir, PutCheck(put), BodyTemps(put, t, u),
                  SetObjects(dir, Objects(dir)[put.name := Received(put.chunks).value]), MetaCreate(put))
  {
    hide EncodeKey, IsTempName, Received, Times;
    NothingReceived(PutCreate(put));
    WritesBody(dir, put, t, u, 0);
    var tmps := BodyTemps(put, t, u);
    assert tmps[1..][1..] == Times(u, |put.chunks| + 1);
  }

  /** Its remaining steps: the sidecar. */
  lemma PlacesSidecar(dir: Dir, put: PutReq, t: Str, u: Str)
    requires HasMeta(dir) && TwoTemps(dir, t, u) && put.Named() && Received(put.chunks).Some?
    ensures Takes(dir, MetaCreate(put), [t, u, u],
                  SetMeta(dir, Sidecars(dir)[SidecarName(put.name) := Json(put.Recorded())]),
                  Ended(PutKey(put), Success(())))
  {
    hide EncodeKey, IsTempName, Received;
    NamesApart(put.key, t);
    var files, file, m := Sidecars(dir), SidecarName(put.name), Json(put.Recorded());
    var torn, whole := SetMeta(dir, files[t := Torn]), SetMeta(dir, files[t := m]);
    assert files[t := Torn][t := m] == files[t := m];
    assert Rename(files[t := m], t, file) == files[file := m];
    var end := SetMeta(dir, files[file := m]);
    assert Takes(whole, MetaRename(put, t), [u], end, Ended(PutKey(put), Success(())));
    assert [u, u][1..] == [u] && [t, u, u][1..] == [u, u];
    assert Takes(torn, MetaWrite(put, t), [u, u], end, Ended(PutKey(put), Success(())));
  }

  /** A name that is fresh stays so while named files come and go. */
  lemma StillFresh(dir: Dir, dir': Dir, request: Request, t: Str, u: Str)
    requires TwoTemps(dir, t, u) && request.Named() && request.Target().Some?
    requires Objects(dir').Keys <= Objects(dir).Keys + {request.Target().value}
    requires Sidecars(dir').Keys <= Sidecars(dir).Keys + {SidecarName(request.Target().value)}
    ensures TwoTemps(dir', t, u)
  {
    hide EncodeKey, IsTempName;
    NameIsNoTemp(First(request), t);
    NameIsNoTemp(First(request), u);
    assert t !in Objects(dir').Keys && u !in Objects(dir').Keys;
    assert t !in Sidecars(dir').Keys && u !in Sidecars(dir').Keys;
  }

  // ---- Two puts to one key ----

  lemma Mismatch(dir: Dir, put: PutReq, body: Str, body': Str)
    requires Received(put.chunks) == Some(body) && body != body'
    requires put.name in Objects(dir) && Objects(dir)[put.name] == body'
    requires SidecarName(put.name) in Sidecars(dir) && Sidecars(dir)[SidecarName(put.name)] == Json(put.Recorded())
    ensures !Agree(dir, put.name)
  {
    hide Received, SidecarName;
  }

  /** Two requests at their first step have both answered Ok, and no other process has moved. */
  ghost predicate BothOk(s: State, end: State, first: nat, second: nat) {
    Answered(end, first) == Answered(end, second) == Some(Success(())) && OthersStay(s, end, first, second)
  }

  ghost predicate OthersStay(s: State, end: State, first: nat, second: nat) {
    && end.procs.Keys == s.procs.Keys
    && forall id :: id in s.procs && id != first && id != second ==> end.procs[id] == s.procs[id]
  }

  ghost predicate OnlySteps(acts: seq<Action>) {
    forall a :: a in acts ==> a.Advance?
  }

  lemma {:induction false} AdvancesAreSteps(id: nat, tmps: seq<Str>)
    ensures OnlySteps(Advances(id, tmps))
  {
    if tmps != [] {
      AdvancesAreSteps(id, tmps[1..]);
    }
  }

  function Answered(s: State, id: nat): Option<Result<()>> {
    if id in s.procs && s.procs[id].Ended? then Some(s.procs[id].outcome) else None
  }

  /** Without politeness agreement fails: of any two puts to one key with different bodies, in
      whatever chunks they arrive, the first may place its body first and its sidecar last. Both
      answer Ok. */
  lemma PutsDisagree(s: State, first: nat, put: PutReq, body: Str, second: nat, put': PutReq, body': Str,
      t: Str, u: Str)
    returns (acts: seq<Action>)
    requires first in s.procs && second in s.procs && first != second
    requires s.procs[first] == PutCheck(put) && s.procs[second] == PutCheck(put')
    requires put.Named() && put'.Named() && put.name == put'.name != []
    requires Received(put.chunks) == Some(body) && Received(put'.chunks) == Some(body') && body != body'
    requires HasObjects(s.dir) && HasMeta(s.dir) && TwoTemps(s.dir, t, u)
    ensures Possible(s, acts) && OnlySteps(acts)
    ensures var end := Exec(s, acts); BothOk(s, end, first, second) && !Agree(end.dir, put.name)
  {
    hide EncodeKey, IsTempName, Step, Takes, Possible, Exec, Received, BodyTemps, Advances, SidecarName, Agree;
    var n, file, all := put.name, SidecarName(put.name), s.procs;
    var dir1 := SetObjects(s.dir, Objects(s.dir)[n := body]);
    var dir2 := SetObjects(s.dir, Objects(s.dir)[n := body']);
    var dir3 := SetMeta(dir2, Sidecars(s.dir)[file := Json(put'.Recorded())]);
    var dir4 := SetMeta(dir2, Sidecars(s.dir)[file := Json(put.Recorded())]);
    assert Objects(s.dir)[n := body][n := body'] == Objects(s.dir)[n := body'];
    assert Sidecars(dir3)[file := Json(put.Recorded())] == Sidecars(dir4);
    StillFresh(s.dir, dir1, PutKey(put), t, u);
    StillFresh(s.dir, dir2, PutKey(put), t, u);
    StillFresh(s.dir, dir3, PutKey(put), t, u);
    PlacesBody(s.dir, put, t, u);
    PlacesBody(dir1, put', t, u);
    PlacesSidecar(dir2, put', t, u);
    PlacesSidecar(dir3, put, t, u);
    var s1 := State(dir1, all[first := MetaCreate(put)]);
    var s2 := State(dir2, s1.procs[second := MetaCreate(put')]);
    var s3 := State(dir3, s2.procs[second := Ended(PutKey(put'), Success(()))]);
    var s4 := State(dir4, s3.procs[first := Ended(PutKey(put), Success(()))]);
    var a1, a2 := Advances(first, BodyTemps(put, t, u)), Advances(second, BodyTemps(put', t, u));
    var a3, a4 := Advances(second, [t, u, u]), Advances(first, [t, u, u]);
    TakesLeads(s, first, BodyTemps(put, t, u), dir1, MetaCreate(put));
    TakesLeads(s1, second, BodyTemps(put', t, u), dir2, MetaCreate(put'));
    TakesLeads(s2, second, [t, u, u], dir3, Ended(PutKey(put'), Success(())));
    TakesLeads(s3, first, [t, u, u], dir4, Ended(PutKey(put), Success(())));
    LeadsOn(s, a1, s1, a2, s2);
    LeadsOn(s, a1 + a2, s2, a3, s3);
    LeadsOn(s, a1 + a2 + a3, s3, a4, s4);
    acts := a1 + a2 + a3 + a4;
    AdvancesAreSteps(first, BodyTemps(put, t, u));
    AdvancesAreSteps(second, BodyTemps(put', t, u));
    AdvancesAreSteps(second, [t, u, u]);
    AdvancesAreSteps(first, [t, u, u]);
    Mismatch(dir4, put, body, body');
  }

  // ---- A put and a delete of one key ----

  lemma DeletesBoth(dir: Dir, key: Str, n: Str, u: Str)
    requires EncodeKey(key) == Success(n) && n != [] && n in Objects(dir) && HasMeta(dir) && Fresh(dir, u)
    ensures Takes(dir, DeleteBody(key, n), [u, u],
                  SetMeta(SetObjects(dir, Objects(dir) - {n}), Sidecars(dir) - {SidecarName(n)}),
                  Ended(DeleteKey(key, n), Success(())))
  {
    hide EncodeKey, IsTempName;
    var dir1 := SetObjects(dir, Objects(dir) - {n});
    assert Fresh(dir1, u);
    assert [u, u][1..] == [u];
    TakesOne(dir1, DeleteMeta(key, n), u);
  }

  /** A put is at its sidecar when a delete of the key runs: the key is left with a sidecar and
      no body, and both have answered Ok. */
  lemma PutAndDeleteDisagree(s: State, first: nat, put: PutReq, second: nat, key: Str, t: Str, u: Str)
    returns (acts: seq<Action>)
    requires first in s.procs && second in s.procs && first != second
    requires s.procs[first] == PutCheck(put) && s.procs[second] == DeleteBody(key, put.name)
    requires put.Named() && EncodeKey(key) == Success(put.name) && put.name != [] && Received(put.chunks).Some?
    requires HasObjects(s.dir) && HasMeta(s.dir) && TwoTemps(s.dir, t, u)
    ensures Possible(s, acts) && OnlySteps(acts)
    ensures var end := Exec(s, acts);
      && BothOk(s, end, first, second)
      && put.name !in Objects(end.dir) && SidecarName(put.name) in Sidecars(end.dir)
  {
    hide EncodeKey, IsTempName, Step, Takes, Possible, Exec, Received, BodyTemps, Advances, SidecarName;
    var n, file, all := put.name, SidecarName(put.name), s.procs;
    var dir1 := SetObjects(s.dir, Objects(s.dir)[n := Received(put.chunks).value]);
    var dir2 := SetMeta(SetObjects(s.dir, Objects(s.dir) - {n}), Sidecars(s.dir) - {file});
    var dir3 := SetMeta(dir2, Sidecars(s.dir)[file := Json(put.Recorded())]);
    assert Objects(dir1) - {n} == Objects(s.dir) - {n};
    assert Sidecars(dir2)[file := Json(put.Recorded())] == Sidecars(dir3);
    StillFresh(s.dir, dir1, PutKey(put), t, u);
    StillFresh(s.dir, dir2, PutKey(put), t, u);
    PlacesBody(s.dir, put, t, u);
    DeletesBoth(dir1, key, n, u);
    PlacesSidecar(dir2, put, t, u);
    var s1 := State(dir1, all[first := MetaCreate(put)]);
    var s2 := State(dir2, s1.procs[second := Ended(DeleteKey(key, n), Success(()))]);
    var s3 := State(dir3, s2.procs[first := Ended(PutKey(put), Success(()))]);
    var a1, a2, a3 := Advances(first, BodyTemps(put, t, u)), Advances(second, [u, u]), Advances(first, [t, u, u]);
    TakesLeads(s, first, BodyTemps(put, t, u), dir1, MetaCreate(put));
    TakesLeads(s1, second, [u, u], dir2, Ended(DeleteKey(key, n), Success(())));
    TakesLeads(s2, first, [t, u, u], dir3, Ended(PutKey(put), Success(())));
    LeadsOn(s, a1, s1, a2, s2);
    LeadsOn(s, a1 + a2, s2, a3, s3);
    acts := a1 + a2 + a3;
    AdvancesAreSteps(first, BodyTemps(put, t, u));
    AdvancesAreSteps(second, [u, u]);
    AdvancesAreSteps(first, [t, u, u]);
  }

  // ---- Exactly which requests may disagree ----

  /** All requests at work on the key are at their first step. */
  ghost predicate AllAtStart(s: State, n: Str) {
    forall id :: id in s.procs && ActiveOn(s.procs[id], n) ==> s.procs[id] == First(RequestOf(s.procs[id]))
  }

  /** Each request on the key has answered or has not moved yet. */
  ghost predicate WholeRequests(s: State, end: State, n: Str) {
    forall id :: id in end.procs && ActiveOn(end.procs[id], n) ==> id in s.procs && end.procs[id] == s.procs[id]
  }

  /** Some schedule, without a crash and without a further request for the key, ends with body and
      sidecar apart although no request on the key has stopped half way. */
  ghost predicate CanDisagree(s: State, n: Str) {
    exists acts :: EndsApart(s, acts, n)
  }

  ghost predicate EndsApart(s: State, acts: seq<Action>, n: Str) {
    && Possible(s, acts) && Spared(acts, n) && (forall a :: a in acts ==> !a.Crash?)
    && WholeRequests(s, Exec(s, acts), n)
    && !Agree(Exec(s, acts).dir, n)
  }

  lemma StartIsSettled(s: State, end: State, n: Str)
    requires AllAtStart(s, n) && WholeRequests(s, end, n)
    ensures Settled(end, n)
  {
    forall id | id in end.procs ensures !Between(end.procs[id], n) {
      if ActiveOn(end.procs[id], n) {
        assert end.procs[id] == First(RequestOf(end.procs[id]));
      }
    }
  }

  lemma {:induction false} SparedIsHarmless(s: State, acts: seq<Action>, n: Str)
    requires Possible(s, acts) && Spared(acts, n) && forall a :: a in acts ==> !a.Crash?
    ensures HarmlessRun(s, acts, n)
    decreases |acts|
  {
    hide Next, Enabled, Compatible;
    if acts != [] {
      assert acts[0] in acts;
      SparedIsHarmless(Next(s, acts[0]), acts[1..], n);
    }
  }

  lemma CompatibleNeverDisagree(s: State, acts: seq<Action>, n: Str)
    requires Inv(s) && AllAtStart(s, n) && Agree(s.dir, n) && AllCompatible(s.procs, n) && !IsTempName(n)
    ensures !EndsApart(s, acts, n)
  {
    hide Inv, Agree, AllCompatible, Exec, Possible, HarmlessRun, IsTempName, AllAtStart, WholeRequests, Spared;
    if EndsApart(s, acts, n) {
      assert WholeRequests(s, s, n) by {
        SelfWhole(s, n);
      }
      StartIsSettled(s, s, n);
      assert KeyInv(s, n);
      SparedIsHarmless(s, acts, n);
      KeyAlways(s, acts, n);
      StartIsSettled(s, Exec(s, acts), n);
    }
  }

  lemma SelfWhole(s: State, n: Str)
    ensures WholeRequests(s, s, n)
  {
  }

  lemma BothOkIsWhole(s: State, end: State, first: nat, second: nat, n: Str)
    requires BothOk(s, end, first, second)
    ensures WholeRequests(s, end, n)
  {
  }

  lemma StepsSpare(acts: seq<Action>, n: Str)
    requires OnlySteps(acts)
    ensures Spared(acts, n) && forall a :: a in acts ==> !a.Crash?
  {
  }

  lemma Incompatible(x: Request, y: Request)
    requires !Compatible(x, y)
    ensures Delivers(x) || Delivers(y)
    ensures Delivers(x) && !Delivers(y) ==> y.DeleteKey?
    ensures Delivers(y) && !Delivers(x) ==> x.DeleteKey?
    ensures Delivers(x) && Delivers(y) ==> Received(x.put.chunks) != Received(y.put.chunks)
  {
    hide Received;
  }

  /** Any two incompatible requests that have not begun have a schedule that ends apart. */
  lemma PairDisagrees(s: State, n: Str, first: nat, second: nat, t: Str, u: Str)
    returns (acts: seq<Action>)
    requires Inv(s) && first in s.procs && second in s.procs && first != second
    requires ActiveOn(s.procs[first], n) && s.procs[first] == First(RequestOf(s.procs[first]))
    requires ActiveOn(s.procs[second], n) && s.procs[second] == First(RequestOf(s.procs[second]))
    requires !Compatible(RequestOf(s.procs[first]), RequestOf(s.procs[second]))
    requires HasObjects(s.dir) && TwoTemps(s.dir, t, u)
    ensures EndsApart(s, acts, n) && OnlySteps(acts) && BothOk(s, Exec(s, acts), first, second)
  {
    hide EncodeKey, IsTempName, Received, Possible, Exec, OwnDirs, Distinct, BothOk, Spared, WholeRequests, OnlySteps;
    var x, y := RequestOf(s.procs[first]), RequestOf(s.procs[second]);
    assert OwnTemps(s.dir, s.procs[first]) && OwnTemps(s.dir, s.procs[second]);
    Incompatible(x, y);
    if Delivers(x) && Delivers(y) {
      acts := PutsDisagree(
        s, first, x.put, Received(x.put.chunks).value, second, y.put, Received(y.put.chunks).value, t, u);
    } else if Delivers(x) {
      acts := PutAndDeleteDisagree(s, first, x.put, second, y.key, t, u);
    } else {
      acts := PutAndDeleteDisagree(s, second, y.put, first, x.key, t, u);
      BothOkSwapped(s, Exec(s, acts), first, second);
    }
    StepsSpare(acts, n);
    BothOkIsWhole(s, Exec(s, acts), first, second, n);
  }

  lemma BothOkSwapped(s: State, end: State, first: nat, second: nat)
    requires BothOk(s, end, second, first)
    ensures BothOk(s, end, first, second)
  {
  }

  /** Requests for one key that have not begun, in whatever company on other keys: some schedule
      brings body and sidecar apart exactly when two of the requests are incompatible. */
  lemma DisagreeExactly(s: State, n: Str, t: Str, u: Str)
    requires Inv(s) && AllAtStart(s, n) && Agree(s.dir, n) && !IsTempName(n)
    requires HasObjects(s.dir) && TwoTemps(s.dir, t, u)
    ensures CanDisagree(s, n) <==> !AllCompatible(s.procs, n)
  {
    hide Inv, Agree, EndsApart, TwoTemps, IsTempName, Compatible;
    if AllCompatible(s.procs, n) {
      forall acts ensures !EndsApart(s, acts, n) {
        CompatibleNeverDisagree(s, acts, n);
      }
    } else {
      var first, second :| first in s.procs && second in s.procs && first != second
        && ActiveOn(s.procs[first], n) && ActiveOn(s.procs[second], n)
        && !Compatible(RequestOf(s.procs[first]), RequestOf(s.procs[second]));
      var acts := PairDisagrees(s, n, first, second, t, u);
      assert EndsApart(s, acts, n);
    }
  }

  // ---- No order explains a disagreement ----

  /** The disk after some requests one after the other. */
  function InSequence(d: Disk, b: Str, requests: seq<Request>): Disk
    decreases |requests|
  {
    if requests == [] then d else InSequence(Sequentially(d, b, requests[0]).0, b, requests[1..])
  }

  lemma OwnAgrees(d: Disk, b: Str, request: Request, n: Str)
    requires request.Named() && request.Target() == Some(n) && DirOrder(DirOf(d, b)) && Agree(DirOf(d, b), n)
    ensures Agree(DirOf(Sequentially(d, b, request).0, b), n) && DirOrder(DirOf(Sequentially(d, b, request).0, b))
  {
    hide EncodeKey, Received, SidecarName;
  }

  lemma OtherAgrees(d: Disk, b: Str, request: Request, n: Str)
    requires request.Named() && request.Target() != Some(n) && DirOrder(DirOf(d, b)) && Agree(DirOf(d, b), n)
    ensures Agree(DirOf(Sequentially(d, b, request).0, b), n) && DirOrder(DirOf(Sequentially(d, b, request).0, b))
  {
    hide EncodeKey, Received, SidecarName;
    StemOfSidecar(n);
    if request.Target().Some? {
      StemOfSidecar(request.Target().value);
    }
  }

  lemma {:induction false} SequenceAgrees(d: Disk, b: Str, requests: seq<Request>, n: Str)
    requires DirOrder(DirOf(d, b)) && Agree(DirOf(d, b), n)
    requires forall request :: request in requests ==> request.Named()
    ensures Agree(DirOf(InSequence(d, b, requests), b), n)
    decreases |requests|
  {
    hide Agree, Sequentially, DirOf, DirOrder, EncodeKey;
    if requests != [] {
      var request := requests[0];
      assert request in requests;
      if request.Target() == Some(n) {
        OwnAgrees(d, b, request, n);
      } else {
        OtherAgrees(d, b, request, n);
      }
      SequenceAgrees(Sequentially(d, b, request).0, b, requests[1..], n);
    }
  }

  /** A schedule that ends with body and sidecar apart is equal to no sequence of requests at all. So
      two incompatible requests on one key have a schedule that no order of any requests explains. */
  lemma ApartIsNotSerial(d: Disk, b: Str, s: State, acts: seq<Action>, n: Str, requests: seq<Request>)
    requires s.dir == DirOf(d, b) && Inv(s) && Agree(s.dir, n) && EndsApart(s, acts, n)
    requires forall request :: request in requests ==> request.Named()
    ensures DirOf(InSequence(d, b, requests), b) != Exec(s, acts).dir
  {
    hide Agree, Exec, Possible, DirOf, InSequence, EncodeKey, OwnTemps, OwnDirs;
    SequenceAgrees(d, b, requests, n);
  }

  // ---- The server dies between the two files ----

  lemma CrashEnds(s: State, acts: seq<Action>, s': State)
    requires Leads(s, acts, s')
    ensures Leads(s, acts + [Crash], State(s'.dir, map[]))
  {
    hide Enabled, Next;
    assert Leads(s', [Crash], State(s'.dir, map[])) by {
      assert Next(s', Crash) == State(s'.dir, map[]) && Enabled(s', Crash) by {
        CrashNext(s');
      }
      assert [Crash][1..] == [];
    }
    LeadsOn(s, acts, s', [Crash], State(s'.dir, map[]));
  }

  lemma CrashNext(s: State)
    ensures Enabled(s, Crash) && Next(s, Crash) == State(s.dir, map[])
  {
  }

  /** After a put's rename: body and sidecar agree exactly when the old sidecar already described
      these bytes. A new key is left with a body and no sidecar. */
  lemma CrashAfterRename(s: State, id: nat, put: PutReq, t: Str, u: Str)
    returns (acts: seq<Action>)
    requires id in s.procs && s.procs[id] == PutCheck(put)
    requires put.Named() && put.name != [] && Received(put.chunks).Some?
    requires HasObjects(s.dir) && TwoTemps(s.dir, t, u)
    ensures Possible(s, acts)
    ensures var dir, file := Exec(s, acts).dir, SidecarName(put.name);
      && put.name in Objects(dir) && Objects(dir)[put.name] == Received(put.chunks).value
      && (Agree(dir, put.name) <==>
           && file in Sidecars(s.dir) && Sidecars(s.dir)[file].Json?
           && ObjectMap.Describes(Sidecars(s.dir)[file].meta, Received(put.chunks).value))
  {
    hide EncodeKey, IsTempName, Step, Takes, Possible, Exec, Received, BodyTemps, Advances, SidecarName;
    var dir := SetObjects(s.dir, Objects(s.dir)[put.name := Received(put.chunks).value]);
    PlacesBody(s.dir, put, t, u);
    TakesLeads(s, id, BodyTemps(put, t, u), dir, MetaCreate(put));
    var s' := State(dir, s.procs[id := MetaCreate(put)]);
    CrashEnds(s, Advances(id, BodyTemps(put, t, u)), s');
    acts := Advances(id, BodyTemps(put, t, u)) + [Crash];
  }

  /** After a delete's removal of the body: the sidecar is left behind. */
  lemma CrashAfterRemoval(s: State, id: nat, key: Str, n: Str, u: Str)
    returns (acts: seq<Action>)
    requires id in s.procs && s.procs[id] == DeleteBody(key, n) && EncodeKey(key) == Success(n) && n != []
    requires HasObjects(s.dir) && Fresh(s.dir, u) && n in Objects(s.dir) && Agree(s.dir, n)
    ensures Possible(s, acts)
    ensures var dir := Exec(s, acts).dir; n !in Objects(dir) && SidecarName(n) in Sidecars(dir) && !Agree(dir, n)
  {
    hide EncodeKey, IsTempName, Possible, Exec, Advances, SidecarName;
    var dir := SetObjects(s.dir, Objects(s.dir) - {n});
    TakesOne(s.dir, DeleteBody(key, n), u);
    TakesLeads(s, id, [u], dir, DeleteMeta(key, n));
    var s' := State(dir, s.procs[id := DeleteMeta(key, n)]);
    CrashEnds(s, Advances(id, [u]), s');
    acts := Advances(id, [u]) + [Crash];
  }

  // ---- Bucket deletions that overlap with other requests ----

  lemma TakesMore(dir: Dir, p: Proc, u: Str, n: nat, dir': Dir, p': Proc)
    requires Fresh(dir, u)
    requires var (d, q) := Step(dir, p, u); Takes(d, q, Times(u, n), dir', p')
    ensures Takes(dir, p, Times(u, n + 1), dir', p')
  {
    hide Step, IsTempName;
    assert Times(u, n + 1)[1..] == Times(u, n);
  }

  lemma TakesNone(dir: Dir, p: Proc, u: Str)
    ensures Takes(dir, p, Times(u, 0), dir, p)
  {
  }

  /** The end of a bucket deletion that meets no file. */
  lemma DropsRest(dir: Dir, u: Str)
    requires Objects(dir) == map[] && Sidecars(dir) == map[] && IsTempName(u)
    ensures Takes(dir, BucketEmpty, Times(u, 5), None, Ended(DropBucket, Success(())))
  {
    hide EncodeKey, IsTempName, Takes, Times;
    var dir2 := Step(dir, BucketObjects, u).0;
    var dir3 := Step(dir2, BucketMeta, u).0;
    var dir4 := Step(dir3, BucketInfo, u).0;
    TakesNone(None, Ended(DropBucket, Success(())), u);
    TakesMore(dir4, BucketDirectory, u, 0, None, Ended(DropBucket, Success(())));
    TakesMore(dir3, BucketInfo, u, 1, None, Ended(DropBucket, Success(())));
    TakesMore(dir2, BucketMeta, u, 2, None, Ended(DropBucket, Success(())));
    TakesMore(dir, BucketObjects, u, 3, None, Ended(DropBucket, Success(())));
    TakesMore(dir, BucketEmpty, u, 4, None, Ended(DropBucket, Success(())));
  }

  /** One after the other, the two requests get these answers. */
  predicate InOrder(d: Disk, b: Str, x: Request, rx: Result<()>, y: Request, ry: Result<()>) {
    var (d', r) := Sequentially(d, b, x);
    r == rx && Sequentially(d', b, y).1 == ry
  }

  function BothDone(d: Disk, b: Str, x: Request, y: Request): Disk {
    Sequentially(Sequentially(d, b, x).0, b, y).0
  }

  /** Two deletes of one key: the one that finds nothing may be answered first. The answers are those
      of the order in which they reach the body, and not those of the order of the answers. */
  lemma DeletesOutOfOrder(d: Disk, b: Str, s: State, first: nat, second: nat, key: Str, n: Str, u: Str)
    returns (acts: seq<Action>, later: seq<Action>)
    requires b in d.buckets && s.dir == DirOf(d, b) && HasObjects(s.dir) && n in Objects(s.dir) && Fresh(s.dir, u)
    requires first in s.procs && second in s.procs && first != second
    requires s.procs[first] == s.procs[second] == DeleteBody(key, n) && EncodeKey(key) == Success(n) && n != []
    ensures Possible(s, acts) && Possible(Exec(s, acts), later)
    ensures Answered(Exec(s, acts), first) == None && Answered(Exec(s, acts), second) == Some(Failure(NoSuchKey))
    ensures Answered(Exec(Exec(s, acts), later), first) == Some(Success(()))
    ensures InOrder(d, b, DeleteKey(key, n), Success(()), DeleteKey(key, n), Failure(NoSuchKey))
    ensures !InOrder(d, b, DeleteKey(key, n), Failure(NoSuchKey), DeleteKey(key, n), Success(()))
  {
    hide EncodeKey, IsTempName, Takes, Possible, Exec, Advances, SidecarName;
    var r := DeleteKey(key, n);
    var dir1 := SetObjects(s.dir, Objects(s.dir) - {n});
    TakesOne(s.dir, DeleteBody(key, n), u);
    TakesOne(dir1, DeleteBody(key, n), u);
    TakesOne(dir1, DeleteMeta(key, n), u);
    var dir2 := Step(dir1, DeleteMeta(key, n), u).0;
    var s1 := State(dir1, s.procs[first := DeleteMeta(key, n)]);
    var s2 := State(dir1, s1.procs[second := Ended(r, Failure(NoSuchKey))]);
    TakesLeads(s, first, [u], dir1, DeleteMeta(key, n));
    TakesLeads(s1, second, [u], dir1, Ended(r, Failure(NoSuchKey)));
    LeadsOn(s, Advances(first, [u]), s1, Advances(second, [u]), s2);
    TakesLeads(s2, first, [u], dir2, Ended(r, Success(())));
    acts, later := Advances(first, [u]) + Advances(second, [u]), Advances(first, [u]);
  }

  /** An empty bucket is deleted between a put's look at the bucket and its temp file: the put
      answers an I/O error. In either order one after the other it would be stored or answer
      NoSuchBucket. */
  lemma DropUnderPut(d: Disk, b: Str, s: State, first: nat, put: PutReq, second: nat, u: Str)
    returns (acts: seq<Action>)
    requires b in d.buckets && s.dir == DirOf(d, b) && HasObjects(s.dir) && HasMeta(s.dir) && IsTempName(u)
    requires Objects(s.dir) == map[] && Sidecars(s.dir) == map[]
    requires first in s.procs && second in s.procs && first != second
    requires s.procs[first] == PutCheck(put) && s.procs[second] == BucketCheck
    requires put.Named() && put.name != [] && Received(put.chunks).Some?
    ensures Possible(s, acts) && OnlySteps(acts)
    ensures OthersStay(s, Exec(s, acts), first, second)
    ensures var end := Exec(s, acts);
      Answered(end, first) == Some(Failure(Io)) && Answered(end, second) == Some(Success(()))
    ensures !InOrder(d, b, PutKey(put), Failure(Io), DropBucket, Success(()))
    ensures !InOrder(d, b, DropBucket, Success(()), PutKey(put), Failure(Io))
  {
    hide EncodeKey, IsTempName, Takes, Possible, Exec, Received, Advances, Times;
    var all, gone := s.procs, Ended(DropBucket, Success(()));
    TakesOne(s.dir, PutCheck(put), u);
    TakesOne(s.dir, BucketCheck, u);
    DropsRest(s.dir, u);
    TakesOne(None, PutCreate(put), u);
    var s1 := State(s.dir, all[first := PutCreate(put)]);
    var s2 := State(s.dir, s1.procs[second := BucketEmpty]);
    var s3 := State(None, s2.procs[second := gone]);
    var s4 := State(None, s3.procs[first := Ended(PutKey(put), Failure(Io))]);
    var a1, a2 := Advances(first, [u]), Advances(second, [u]);
    var a3 := Advances(second, Times(u, 5));
    TakesLeads(s, first, [u], s.dir, PutCreate(put));
    TakesLeads(s1, second, [u], s.dir, BucketEmpty);
    TakesLeads(s2, second, Times(u, 5), None, gone);
    TakesLeads(s3, first, [u], None, Ended(PutKey(put), Failure(Io)));
    LeadsOn(s, a1, s1, a2, s2);
    LeadsOn(s, a1 + a2, s2, a3, s3);
    LeadsOn(s, a1 + a2 + a3, s3, a1, s4);
    acts := a1 + a2 + a3 + a1;
    AdvancesAreSteps(first, [u]);
    AdvancesAreSteps(second, [u]);
    AdvancesAreSteps(second, Times(u, 5));
  }

  /** A put whose stream breaks, from chunk `i` on: nothing is left of it. */
  lemma {:induction false} BreaksOff(dir: Dir, put: PutReq, t: Str, u: Str, i: nat)
    returns (k: nat)
    requires HasObjects(dir) && TwoTemps(dir, t, u) && put.Named()
    requires i <= |put.chunks| && Received(put.chunks[..i]).Some? && Received(put.chunks).None?
    ensures Takes(SetObjects(dir, Objects(dir)[t := Received(put.chunks[..i]).value]), PutWrite(put, t, i),
                  Times(u, k), dir, Ended(PutKey(put), Failure(Io)))
    decreases |put.chunks| - i
  {
    hide EncodeKey, IsTempName, Received, Takes, Times;
    var files, sofar, refused := Objects(dir), Received(put.chunks[..i]).value, Ended(PutKey(put), Failure(Io));
    var now := SetObjects(dir, files[t := sofar]);
    assert i < |put.chunks| by {
      assert put.chunks[..|put.chunks|] == put.chunks;
    }
    if put.chunks[i].Broken? {
      assert files[t := sofar] - {t} == files;
      TakesNone(dir, refused, u);
      TakesMore(now, PutCleanup(put, t), u, 0, dir, refused);
      TakesMore(now, PutWrite(put, t, i), u, 1, dir, refused);
      k := 2;
    } else {
      ReceivedSnoc(put.chunks, i);
      var more := sofar + put.chunks[i].bytes;
      assert files[t := sofar][t := more] == files[t := more];
      var rest := BreaksOff(dir, put, t, u, i + 1);
      TakesMore(now, PutWrite(put, t, i), u, rest, dir, refused);
      k := rest + 1;
    }
  }

  lemma SeesTemp(dir: Dir, u: Str)
    requires HasObjects(dir) && Objects(dir) != map[] && Fresh(dir, u)
    ensures Takes(dir, BucketCheck, Times(u, 2), dir, Ended(DropBucket, Failure(BucketNotEmpty)))
  {
    hide EncodeKey, IsTempName, Takes, Times;
    var refused := Ended(DropBucket, Failure(BucketNotEmpty));
    TakesNone(dir, refused, u);
    TakesMore(dir, BucketEmpty, u, 0, dir, refused);
    TakesMore(dir, BucketCheck, u, 1, dir, refused);
  }

  /** The deletion of an empty bucket is refused because of the temp file of a put that comes to
      nothing. In either order one after the other it would succeed. */
  lemma DropUnderBrokenPut(d: Disk, b: Str, s: State, first: nat, put: PutReq, second: nat, t: Str, u: Str)
    returns (acts: seq<Action>)
    requires b in d.buckets && s.dir == DirOf(d, b) && HasObjects(s.dir) && TwoTemps(s.dir, t, u)
    requires Objects(s.dir) == map[] && Sidecars(s.dir) == map[]
    requires first in s.procs && second in s.procs && first != second
    requires s.procs[first] == PutCheck(put) && s.procs[second] == BucketCheck
    requires put.Named() && Received(put.chunks).None?
    ensures Possible(s, acts) && OnlySteps(acts) && OthersStay(s, Exec(s, acts), first, second)
    ensures var end := Exec(s, acts);
      Answered(end, first) == Some(Failure(Io)) && Answered(end, second) == Some(Failure(BucketNotEmpty))
    ensures !InOrder(d, b, PutKey(put), Failure(Io), DropBucket, Failure(BucketNotEmpty))
    ensures !InOrder(d, b, DropBucket, Failure(BucketNotEmpty), PutKey(put), Failure(Io))
  {
    hide EncodeKey, IsTempName, Takes, Possible, Exec, Received, Advances, Times;
    var all, refused, broken := s.procs, Ended(DropBucket, Failure(BucketNotEmpty)), Ended(PutKey(put), Failure(Io));
    var dir1 := SetObjects(s.dir, Objects(s.dir)[t := []]);
    NothingReceived(PutCreate(put));
    TakesOne(s.dir, PutCheck(put), t);
    TakesOne(s.dir, PutCreate(put), t);
    TakesBoth(s.dir, PutCheck(put), [t], s.dir, PutCreate(put), [t], dir1, PutWrite(put, t, 0));
    assert t in Objects(dir1);
    SeesTemp(dir1, u);
    var k := BreaksOff(s.dir, put, t, u, 0);
    var s1 := State(dir1, all[first := PutWrite(put, t, 0)]);
    var s2 := State(dir1, s1.procs[second := refused]);
    var s3 := State(s.dir, s2.procs[first := broken]);
    var a1, a2, a3 := Advances(first, [t] + [t]), Advances(second, Times(u, 2)), Advances(first, Times(u, k));
    TakesLeads(s, first, [t] + [t], dir1, PutWrite(put, t, 0));
    TakesLeads(s1, second, Times(u, 2), dir1, refused);
    TakesLeads(s2, first, Times(u, k), s.dir, broken);
    LeadsOn(s, a1, s1, a2, s2);
    LeadsOn(s, a1 + a2, s2, a3, s3);
    acts := a1 + a2 + a3;
    AdvancesAreSteps(first, [t] + [t]);
    AdvancesAreSteps(second, Times(u, 2));
    AdvancesAreSteps(first, Times(u, k));
  }

  /** Two deletions of one empty bucket may both answer Ok; one after the other the second
      answers NoSuchBucket. */
  lemma DropUnderDrop(d: Disk, b: Str, s: State, first: nat, second: nat, u: Str)
    returns (acts: seq<Action>)
    requires b in d.buckets && s.dir == DirOf(d, b) && IsTempName(u)
    requires Objects(s.dir) == map[] && Sidecars(s.dir) == map[]
    requires first in s.procs && second in s.procs && first != second
    requires s.procs[first] == s.procs[second] == BucketCheck
    ensures Possible(s, acts) && OnlySteps(acts)
    ensures OthersStay(s, Exec(s, acts), first, second)
    ensures Answered(Exec(s, acts), first) == Answered(Exec(s, acts), second) == Some(Success(()))
    ensures !InOrder(d, b, DropBucket, Success(()), DropBucket, Success(()))
  {
    hide EncodeKey, IsTempName, Takes, Possible, Exec, Advances, Times;
    var all, gone := s.procs, Ended(DropBucket, Success(()));
    TakesOne(s.dir, BucketCheck, u);
    DropsRest(s.dir, u);
    DropsRest(None, u);
    var s1 := State(s.dir, all[first := BucketEmpty]);
    var s2 := State(s.dir, s1.procs[second := BucketEmpty]);
    var s3 := State(None, s2.procs[second := gone]);
    var s4 := State(None, s3.procs[first := gone]);
    var a1, a2 := Advances(first, [u]), Advances(second, [u]);
    var a3, a4 := Advances(second, Times(u, 5)), Advances(first, Times(u, 5));
    TakesLeads(s, first, [u], s.dir, BucketEmpty);
    TakesLeads(s1, second, [u], s.dir, BucketEmpty);
    TakesLeads(s2, second, Times(u, 5), None, gone);
    TakesLeads(s3, first, Times(u, 5), None, gone);
    LeadsOn(s, a1, s1, a2, s2);
    LeadsOn(s, a1 + a2, s2, a3, s3);
    LeadsOn(s, a1 + a2 + a3, s3, a4, s4);
    acts := a1 + a2 + a3 + a4;
    AdvancesAreSteps(first, [u]);
    AdvancesAreSteps(second, [u]);
    AdvancesAreSteps(second, Times(u, 5));
    AdvancesAreSteps(first, Times(u, 5));
  }

  /** A bucket deletion that finds objects/ empty and meta/ not. */
  lemma DropsHalf(dir: Dir, u: Str)
    requires HasObjects(dir) && Objects(dir) == map[] && Sidecars(dir) != map[] && Fresh(dir, u)
    ensures Takes(dir, BucketCheck, Times(u, 5), Some(dir.value.(objects := None)),
                  Ended(DropBucket, Failure(BucketNotEmpty)))
  {
    hide EncodeKey, IsTempName, Takes, Times;
    var half, refused := Some(dir.value.(objects := None)), Ended(DropBucket, Failure(BucketNotEmpty));
    TakesNone(half, refused, u);
    TakesMore(half, BucketRecheck(false), u, 0, half, refused);
    TakesMore(half, BucketMeta, u, 1, half, refused);
    TakesMore(dir, BucketObjects, u, 2, half, refused);
    TakesMore(dir, BucketEmpty, u, 3, half, refused);
    TakesMore(dir, BucketCheck, u, 4, half, refused);
  }

  /** A bucket deletion between the two removals of the last key's delete: it removes objects/ and
      answers BucketNotEmpty. The bucket survives without objects/, which no order of the two leaves:
      it still exists for create_bucket, and every put of any key fails and changes nothing. */
  lemma DropUnderDelete(d: Disk, b: Str, s: State, first: nat, key: Str, n: Str, second: nat, u: Str)
    returns (acts: seq<Action>, d': Disk)
    requires b in d.buckets && s.dir == DirOf(d, b) && HasObjects(s.dir) && HasMeta(s.dir) && Fresh(s.dir, u)
    requires Objects(s.dir).Keys == {n} && SidecarName(n) in Sidecars(s.dir)
    requires first in s.procs && second in s.procs && first != second
    requires s.procs[first] == DeleteBody(key, n) && s.procs[second] == BucketCheck
    requires EncodeKey(key) == Success(n) && n != []
    ensures Possible(s, acts) && OnlySteps(acts) && OthersStay(s, Exec(s, acts), first, second)
    ensures Exec(s, acts).dir == DirOf(d', b) && b in d'.buckets && d'.buckets[b].objects.None?
    ensures var end := Exec(s, acts);
      Answered(end, first) == Some(Success(())) && Answered(end, second) == Some(Failure(BucketNotEmpty))
    ensures Sidecars(s.dir).Keys == {SidecarName(n)} ==>
      && DirOf(BothDone(d, b, DeleteKey(key, n), DropBucket), b) != DirOf(d', b)
      && DirOf(BothDone(d, b, DropBucket, DeleteKey(key, n)), b) != DirOf(d', b)
    ensures CreateBucket(d', b) == (d', Failure(BucketAlreadyExists))
    ensures forall put: PutReq :: put.Named() ==> Sequentially(d', b, PutKey(put)) == (d', Failure(Io))
  {
    hide EncodeKey, IsTempName, Takes, Possible, Exec, Received, Advances, Times, SidecarName;
    var all, file := s.procs, SidecarName(n);
    var dir1 := SetObjects(s.dir, map[]);
    var dir2 := Some(dir1.value.(objects := None));
    var dir3 := SetMeta(dir2, Sidecars(s.dir) - {file});
    var refused, deleted := Ended(DropBucket, Failure(BucketNotEmpty)), Ended(DeleteKey(key, n), Success(()));
    assert Objects(s.dir) - {n} == map[];
    TakesOne(s.dir, DeleteBody(key, n), u);
    DropsHalf(dir1, u);
    TakesOne(dir2, DeleteMeta(key, n), u);
    var s1 := State(dir1, all[first := DeleteMeta(key, n)]);
    var s2 := State(dir2, s1.procs[second := refused]);
    var s3 := State(dir3, s2.procs[first := deleted]);
    var a1, a2 := Advances(first, [u]), Advances(second, Times(u, 5));
    TakesLeads(s, first, [u], dir1, DeleteMeta(key, n));
    TakesLeads(s1, second, Times(u, 5), dir2, refused);
    TakesLeads(s2, first, [u], dir3, deleted);
    LeadsOn(s, a1, s1, a2, s2);
    LeadsOn(s, a1 + a2, s2, a1, s3);
    acts := a1 + a2 + a1;
    AdvancesAreSteps(first, [u]);
    AdvancesAreSteps(second, Times(u, 5));
    d' := d.(buckets := d.buckets[b := dir3.value]);
  }

  /** A put whose body is in place fails after all when its key is deleted and then the bucket. */
  lemma PutFailsLate(s: State, first: nat, put: PutReq, second: nat, key: Str, third: nat, u: Str)
    returns (acts: seq<Action>)
    requires first in s.procs && second in s.procs && third in s.procs
    requires first != second && first != third && second != third
    requires s.procs[first] == MetaCreate(put) && s.procs[second] == DeleteBody(key, put.name)
    requires s.procs[third] == BucketCheck
    requires put.Named() && EncodeKey(key) == Success(put.name) && put.name != []
    requires HasObjects(s.dir) && HasMeta(s.dir) && Fresh(s.dir, u)
    requires Objects(s.dir).Keys == {put.name} && Sidecars(s.dir).Keys <= {SidecarName(put.name)}
    ensures Possible(s, acts)
    ensures var end := Exec(s, acts);
      && Answered(end, first) == Some(Failure(Io))
      && Answered(end, second) == Answered(end, third) == Some(Success(()))
  {
    hide EncodeKey, IsTempName, Takes, Possible, Exec, Received, Advances, Times, SidecarName;
    var n, all := put.name, s.procs;
    var deleted, gone := Ended(DeleteKey(key, n), Success(())), Ended(DropBucket, Success(()));
    var dir1 := SetMeta(SetObjects(s.dir, map[]), map[]);
    assert Objects(s.dir) - {n} == map[] && Sidecars(s.dir) - {SidecarName(n)} == map[];
    DeletesBoth(s.dir, key, n, u);
    TakesOne(dir1, BucketCheck, u);
    DropsRest(dir1, u);
    TakesOne(None, MetaCreate(put), u);
    var s1 := State(dir1, all[second := deleted]);
    var s2 := State(dir1, s1.procs[third := BucketEmpty]);
    var s3 := State(None, s2.procs[third := gone]);
    var s4 := State(None, s3.procs[first := Ended(PutKey(put), Failure(Io))]);
    var a1, a2 := Advances(second, [u, u]), Advances(third, [u]);
    var a3, a4 := Advances(third, Times(u, 5)), Advances(first, [u]);
    TakesLeads(s, second, [u, u], dir1, deleted);
    TakesLeads(s1, third, [u], dir1, BucketEmpty);
    TakesLeads(s2, third, Times(u, 5), None, gone);
    TakesLeads(s3, first, [u], None, Ended(PutKey(put), Failure(Io)));
    LeadsOn(s, a1, s1, a2, s2);
    LeadsOn(s, a1 + a2, s2, a3, s3);
    LeadsOn(s, a1 + a2 + a3, s3, a4, s4);
    acts := a1 + a2 + a3 + a4;
  }
}
