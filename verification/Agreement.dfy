/** Body and sidecar of one key under concurrent requests, and what a put may rely on. */
module Agreement {
  import opened Wrappers
  import opened Bytes
  import opened KeyEncoding
  import opened Meta
  import opened DiskOps
  import opened Interleaving
  import ObjectMap

  /** A key has a body exactly when it has a sidecar, and the sidecar describes the body. */
  predicate Agree(dir: Dir, n: Str) {
    && (n in Objects(dir) <==> SidecarName(n) in Sidecars(dir))
    && (n in Objects(dir) ==>
         Sidecars(dir)[SidecarName(n)].Json? &&
         ObjectMap.Describes(Sidecars(dir)[SidecarName(n)].meta, Objects(dir)[n]))
  }

  predicate ActiveOn(p: Proc, n: Str) {
    !p.Ended? && RequestOf(p).Target() == Some(n)
  }

  ghost predicate Idle(s: State, n: Str) {
    forall id :: id in s.procs ==> !ActiveOn(s.procs[id], n)
  }

  predicate BodyIs(dir: Dir, put: PutReq) {
    put.name in Objects(dir) && Received(put.chunks) == Some(Objects(dir)[put.name])
  }

  // ---- Requests that may overlap ----

  /** A put that puts a body in place: its stream does not break, and its key is not empty. */
  predicate Delivers(r: Request) {
    r.PutKey? && Received(r.put.chunks).Some? && r.put.name != []
  }

  /** Two requests on one key that cannot bring its files apart: neither is a put that delivers
      while the other deletes, and if both deliver, they deliver the same bytes. */
  predicate Compatible(x: Request, y: Request) {
    && !(Delivers(x) && y.DeleteKey?)
    && !(x.DeleteKey? && Delivers(y))
    && (Delivers(x) && Delivers(y) ==> Received(x.put.chunks) == Received(y.put.chunks))
  }

  /** Between the two files: a put past the rename of its body, a delete that has removed it. */
  predicate Between(p: Proc, n: Str) {
    ActiveOn(p, n) && (p.MetaCreate? || p.MetaWrite? || p.MetaRename? || p.DeleteMeta?)
  }

  /** No request is between the two files of the key. */
  ghost predicate Settled(s: State, n: Str) {
    forall id :: id in s.procs ==> !Between(s.procs[id], n)
  }

  /** The requests at work on the key are compatible with each other. */
  ghost predicate AllCompatible(procs: map<nat, Proc>, n: Str) {
    forall p, q :: p in procs && q in procs && p != q && ActiveOn(procs[p], n) && ActiveOn(procs[q], n) ==>
      Compatible(RequestOf(procs[p]), RequestOf(procs[q]))
  }

  /** What a process between the two files has made of the body. */
  predicate Halfway(dir: Dir, p: Proc) {
    && (p.MetaCreate? || p.MetaWrite? || p.MetaRename? ==> BodyIs(dir, p.put))
    && (p.DeleteMeta? ==> p.name !in Objects(dir))
  }

  // ---- One step of a request on its own key ----

  /** Before the rename or the removal a step leaves the files alone, or it is that step. */
  lemma EarlyStep(dir: Dir, p: Proc, tmp: Str, n: Str)
    requires OwnTemps(dir, p) && Fresh(dir, tmp) && ActiveOn(p, n) && !Between(p, n)
    ensures var (dir', p') := Step(dir, p, tmp);
      if Between(p', n) then Halfway(dir', p') && (Delivers(RequestOf(p)) || RequestOf(p).DeleteKey?)
      else SameFiles(dir, dir', n)
  {
    hide EncodeKey, IsTempName, Received;
    OwnNameIsNoTemp(p, tmp);
    if p.PutWrite? || p.PutCleanup? {
      OwnNameIsNoTemp(p, p.tmp);
      SidecarNoTemp(n);
    }
    if p.PutWrite? {
      assert p.i == |p.put.chunks| ==> p.put.chunks[..p.i] == p.put.chunks;
    }
  }

  /** Past it, a step leaves the body alone, and the last one brings the sidecar in line. */
  lemma LateStep(dir: Dir, p: Proc, tmp: Str, n: Str)
    requires DirOrder(dir) && OwnTemps(dir, p) && Fresh(dir, tmp) && Between(p, n) && Halfway(dir, p)
    ensures var (dir', p') := Step(dir, p, tmp);
      && Objects(dir') == Objects(dir)
      && (if Between(p', n) then Halfway(dir', p') else Agree(dir', n) && p'.Ended? && p'.outcome.Success?)
  {
    hide EncodeKey, IsTempName, Received;
    OwnNameIsNoTemp(p, tmp);
  }

  /** A compatible request that is between the files stays as far as it was. */
  lemma OtherHalfway(dir: Dir, p: Proc, tmp: Str, q: Proc, n: Str)
    requires DirOrder(dir) && OwnTemps(dir, p) && OwnTemps(dir, q) && Fresh(dir, tmp)
    requires ActiveOn(p, n) && Compatible(RequestOf(p), RequestOf(q))
    requires Between(q, n) && Halfway(dir, q) && (Between(p, n) ==> Halfway(dir, p))
    ensures Halfway(Step(dir, p, tmp).0, q)
  {
    hide EncodeKey, IsTempName, Received, Step, SameFiles, Halfway;
    var (dir', p') := Step(dir, p, tmp);
    if Between(p, n) {
      LateStep(dir, p, tmp, n);
      SameBodyHalfway(dir, dir', q);
    } else {
      EarlyStep(dir, p, tmp, n);
      SameRequest(dir, p, tmp);
      if Between(p', n) {
        SameHalfway(dir', p', q, n);
      } else {
        SameFilesAgree(dir, dir', n, q);
      }
    }
  }

  lemma SameBodyHalfway(dir: Dir, dir': Dir, q: Proc)
    requires Objects(dir') == Objects(dir)
    ensures Halfway(dir, q) <==> Halfway(dir', q)
  {
    hide Received;
  }

  /** Two compatible requests between the files have made the same of the body. */
  lemma SameHalfway(dir: Dir, p: Proc, q: Proc, n: Str)
    requires Between(p, n) && Between(q, n) && Compatible(RequestOf(p), RequestOf(q)) && Halfway(dir, p)
    requires Delivers(RequestOf(p)) || RequestOf(p).DeleteKey?
    requires RequestOf(q).PutKey? ==> Delivers(RequestOf(q))
    ensures Halfway(dir, q)
  {
    hide Received;
  }

  /** Agreement is about the files of the key alone. */
  lemma SameFilesAgree(dir: Dir, dir': Dir, n: Str, q: Proc)
    requires SameFiles(dir, dir', n)
    ensures Agree(dir, n) <==> Agree(dir', n)
    ensures Between(q, n) ==> (Halfway(dir, q) <==> Halfway(dir', q))
  {
    hide IsTempName, Received;
  }

  // ---- One key along a run ----

  /** The requests at work on the key are compatible; those between its files have made of the
      body what they should; when there is none of these, body and sidecar agree. */
  ghost predicate KeyInv(s: State, n: Str) {
    && Inv(s)
    && AllCompatible(s.procs, n)
    && (forall p :: p in s.procs && Between(s.procs[p], n) ==> Halfway(s.dir, s.procs[p]))
    && (Settled(s, n) ==> Agree(s.dir, n))
  }

  /** A request for the key arrives only while those at work on it are compatible with it, and the
      server dies only while none is between its files. */
  ghost predicate Harmless(s: State, a: Action, n: Str) {
    && (a.Crash? ==> Settled(s, n))
    && (a.Arrive? && a.request.Target() == Some(n) ==>
         forall q :: q in s.procs && ActiveOn(s.procs[q], n) ==> Compatible(a.request, RequestOf(s.procs[q])))
  }

  ghost predicate HarmlessRun(s: State, acts: seq<Action>, n: Str)
    requires Possible(s, acts)
    decreases |acts|
  {
    acts == [] || (Harmless(s, acts[0], n) && HarmlessRun(Next(s, acts[0]), acts[1..], n))
  }

  lemma KeyNext(s: State, a: Action, n: Str)
    requires KeyInv(s, n) && Enabled(s, a) && Harmless(s, a, n) && !IsTempName(n)
    ensures KeyInv(Next(s, a), n)
  {
    InvNext(s, a);
    match a
    case Arrive(id, request) => ArriveKeeps(s, id, request, n);
    case Advance(id, tmp) =>
      if ActiveOn(s.procs[id], n) {
        OwnerKeeps(s, id, tmp, n);
      } else {
        OthersKeep(s, id, tmp, n);
      }
    case Crash =>
  }

  lemma ArriveKeeps(s: State, id: nat, request: Request, n: Str)
    requires KeyInv(s, n) && Enabled(s, Arrive(id, request)) && Harmless(s, Arrive(id, request), n)
    requires Inv(Next(s, Arrive(id, request)))
    ensures KeyInv(Next(s, Arrive(id, request)), n)
  {
    hide Inv, EncodeKey, Agree, Received, Halfway;
    var s' := Next(s, Arrive(id, request));
    FirstIsEarly(request, n);
    forall p, q | p in s'.procs && q in s'.procs && p != q && ActiveOn(s'.procs[p], n) && ActiveOn(s'.procs[q], n)
      ensures Compatible(RequestOf(s'.procs[p]), RequestOf(s'.procs[q]))
    {
      if p == id {
        assert ActiveOn(s.procs[q], n);
      } else if q == id {
        assert ActiveOn(s.procs[p], n);
      }
    }
    forall q | q in s.procs && Settled(s', n) ensures !Between(s.procs[q], n) {
      assert !Between(s'.procs[q], n);
    }
  }

  lemma FirstIsEarly(request: Request, n: Str)
    ensures RequestOf(First(request)) == request && !Between(First(request), n)
  {
  }

  lemma StillCompatible(s: State, id: nat, tmp: Str, n: Str)
    requires AllCompatible(s.procs, n) && Enabled(s, Advance(id, tmp))
    ensures AllCompatible(Next(s, Advance(id, tmp)).procs, n)
  {
    hide Step, EncodeKey, IsTempName, Compatible;
    var procs' := Next(s, Advance(id, tmp)).procs;
    SameRequest(s.dir, s.procs[id], tmp);
    forall q | q in procs' && ActiveOn(procs'[q], n)
      ensures ActiveOn(s.procs[q], n) && RequestOf(s.procs[q]) == RequestOf(procs'[q])
    {
      if q == id && s.procs[id].Ended? {
        EndedChangesNothing(s.dir, s.procs[id], tmp);
      }
    }
  }

  lemma OwnerKeeps(s: State, id: nat, tmp: Str, n: Str)
    requires KeyInv(s, n) && Enabled(s, Advance(id, tmp)) && ActiveOn(s.procs[id], n)
    requires Inv(Next(s, Advance(id, tmp)))
    ensures KeyInv(Next(s, Advance(id, tmp)), n)
  {
    hide Step, OwnTemps, OwnDirs, Halfway, EncodeKey, IsTempName, Agree, DirOrder, Distinct, Compatible, SameFiles;
    var p, s' := s.procs[id], Next(s, Advance(id, tmp));
    StillCompatible(s, id, tmp, n);
    if Between(p, n) {
      LateStep(s.dir, p, tmp, n);
    } else {
      EarlyStep(s.dir, p, tmp, n);
      SameFilesAgreeIf(s.dir, s'.dir, n, p);
    }
    forall q | q in s'.procs && Between(s'.procs[q], n) ensures Halfway(s'.dir, s'.procs[q]) {
      if q != id {
        OtherHalfway(s.dir, p, tmp, s.procs[q], n);
      }
    }
    if Settled(s', n) && !Between(p, n) {
      assert !Between(s'.procs[id], n);
      forall q | q in s.procs ensures !Between(s.procs[q], n) {
        assert !Between(s'.procs[q], n);
      }
    }
    if Settled(s', n) {
      assert !Between(s'.procs[id], n);
    }
  }

  lemma SameFilesAgreeIf(dir: Dir, dir': Dir, n: Str, q: Proc)
    ensures SameFiles(dir, dir', n) ==> (Agree(dir, n) <==> Agree(dir', n))
  {
    hide Agree, SameFiles;
    if SameFiles(dir, dir', n) {
      SameFilesAgree(dir, dir', n, q);
    }
  }

  /** A step of a process that is not at work on the key. */
  lemma OutsiderStep(s: State, id: nat, tmp: Str, n: Str)
    requires Inv(s) && Enabled(s, Advance(id, tmp)) && !ActiveOn(s.procs[id], n) && !IsTempName(n)
    ensures SameFiles(s.dir, Next(s, Advance(id, tmp)).dir, n)
    ensures !ActiveOn(Next(s, Advance(id, tmp)).procs[id], n)
  {
    hide Step, OwnTemps, OwnDirs, EncodeKey, IsTempName, DirOrder, Distinct;
    var p := s.procs[id];
    SameRequest(s.dir, p, tmp);
    if p.Ended? {
      EndedChangesNothing(s.dir, p, tmp);
    } else {
      StepKeepsFiles(s.dir, p, tmp, n);
    }
  }

  lemma OthersKeep(s: State, id: nat, tmp: Str, n: Str)
    requires KeyInv(s, n) && Enabled(s, Advance(id, tmp)) && !ActiveOn(s.procs[id], n) && !IsTempName(n)
    requires Inv(Next(s, Advance(id, tmp)))
    ensures KeyInv(Next(s, Advance(id, tmp)), n)
  {
    hide Inv, Step, Halfway, EncodeKey, IsTempName, Agree, SameFiles, Compatible;
    var s' := Next(s, Advance(id, tmp));
    OutsiderStep(s, id, tmp, n);
    StillCompatible(s, id, tmp, n);
    SameFilesAgree(s.dir, s'.dir, n, s.procs[id]);
    forall q | q in s'.procs && Between(s'.procs[q], n) ensures Halfway(s'.dir, s'.procs[q]) {
      SameFilesAgree(s.dir, s'.dir, n, s.procs[q]);
    }
    forall q | q in s.procs && Settled(s', n) ensures !Between(s.procs[q], n) {
      assert !Between(s'.procs[q], n);
    }
  }

  lemma {:induction false} KeyAlways(s: State, acts: seq<Action>, n: Str)
    requires KeyInv(s, n) && Possible(s, acts) && HarmlessRun(s, acts, n) && !IsTempName(n)
    ensures KeyInv(Exec(s, acts), n)
    decreases |acts|
  {
    hide KeyInv, Next, Enabled, Harmless;
    if acts != [] {
      KeyNext(s, acts[0], n);
      KeyAlways(Next(s, acts[0]), acts[1..], n);
    }
  }

  /** Overlapping requests on the key are compatible, and the server dies only while none is
      between the files of the key; on other keys anything may happen at any point. Whenever no
      request is between the files of the key, its body and sidecar agree. */
  lemma KeysAgreeAtRest(s: State, acts: seq<Action>, n: Str)
    requires Initial(s) && Agree(s.dir, n) && !IsTempName(n)
    requires Possible(s, acts) && HarmlessRun(s, acts, n) && Settled(Exec(s, acts), n)
    ensures Agree(Exec(s, acts).dir, n)
  {
    hide Exec, HarmlessRun, Possible, IsTempName, Agree, Compatible;
    InitialInv(s);
    KeyAlways(s, acts, n);
  }

  // ---- What a put may rely on ----

  /** No request for the key arrives. */
  ghost predicate Spared(acts: seq<Action>, n: Str) {
    forall a :: a in acts && a.Arrive? ==> a.request.Target() != Some(n)
  }

  /** Files of a key that no request works on, or arrives for, stay as they are in every run,
      whatever overlaps elsewhere and however often the server dies. */
  lemma {:induction false} FilesPersist(s: State, acts: seq<Action>, n: Str)
    requires Inv(s) && Possible(s, acts) && Spared(acts, n) && !IsTempName(n) && Idle(s, n)
    ensures SameFiles(s.dir, Exec(s, acts).dir, n)
    decreases |acts|
  {
    hide Inv, Step, EncodeKey, IsTempName;
    if acts != [] {
      var a, s' := acts[0], Next(s, acts[0]);
      InvNext(s, a);
      assert a in acts;
      if a.Advance? {
        OutsiderStep(s, a.id, a.tmp, n);
      }
      assert Idle(s', n);
      FilesPersist(s', acts[1..], n);
    }
  }

  /** The key's files are those of this put. */
  predicate HoldsPut(dir: Dir, put: PutReq) {
    && Received(put.chunks).Some?
    && put.name in Objects(dir) && Objects(dir)[put.name] == Received(put.chunks).value
    && SidecarName(put.name) in Sidecars(dir) && Sidecars(dir)[SidecarName(put.name)] == Json(put.Recorded())
  }

  /** A put that nobody disturbs on its key: its body, then both files, are in place. */
  predicate Placed(dir: Dir, p: Proc, put: PutReq) {
    && (p.MetaCreate? || p.MetaWrite? || p.MetaRename? ==> BodyIs(dir, put))
    && (p.Ended? && p.outcome.Success? ==> HoldsPut(dir, put))
  }

  ghost predicate SoleInv(s: State, id: nat, put: PutReq) {
    && Inv(s) && put.Named()
    && (forall q :: q in s.procs && q != id ==> !ActiveOn(s.procs[q], put.name))
    && (id in s.procs && RequestOf(s.procs[id]) != PutKey(put) ==> !ActiveOn(s.procs[id], put.name))
    && (id in s.procs && RequestOf(s.procs[id]) == PutKey(put) ==> Placed(s.dir, s.procs[id], put))
  }

  lemma PlacedStep(dir: Dir, p: Proc, tmp: Str, put: PutReq)
    requires OwnTemps(dir, p) && Fresh(dir, tmp) && RequestOf(p) == PutKey(put) && Placed(dir, p, put)
    ensures Placed(Step(dir, p, tmp).0, Step(dir, p, tmp).1, put)
  {
    hide EncodeKey, IsTempName, Received;
    OwnNameIsNoTemp(p, tmp);
    if p.PutWrite? && p.i == |put.chunks| {
      assert put.chunks[..p.i] == put.chunks;
    }
  }

  lemma PlacedElsewhere(dir: Dir, dir': Dir, p: Proc, put: PutReq)
    requires SameFiles(dir, dir', put.name) && Placed(dir, p, put)
    ensures Placed(dir', p, put)
  {
    hide Received;
  }

  lemma PutNameNoTemp(put: PutReq)
    requires put.Named()
    ensures !IsTempName(put.name)
  {
    TargetNoTemp(PutCheck(put));
  }

  lemma SoleNext(s: State, a: Action, id: nat, put: PutReq)
    requires SoleInv(s, id, put) && Enabled(s, a)
    requires a.Arrive? ==> a.request.Target() != Some(put.name)
    ensures SoleInv(Next(s, a), id, put)
  {
    hide Step, OwnTemps, OwnDirs, EncodeKey, IsTempName, Placed, DirOrder, Distinct, SameFiles;
    InvNext(s, a);
    PutNameNoTemp(put);
    if a.Advance? {
      var p, s' := s.procs[a.id], Next(s, a);
      SameRequest(s.dir, p, a.tmp);
      if a.id == id && RequestOf(p) == PutKey(put) {
        PlacedStep(s.dir, p, a.tmp, put);
      } else {
        OutsiderStep(s, a.id, a.tmp, put.name);
        if id in s.procs && RequestOf(s.procs[id]) == PutKey(put) {
          PlacedElsewhere(s.dir, s'.dir, s.procs[id], put);
        }
      }
    }
  }

  lemma {:induction false} SoleAlways(s: State, acts: seq<Action>, id: nat, put: PutReq)
    requires SoleInv(s, id, put) && Possible(s, acts) && Spared(acts, put.name)
    ensures SoleInv(Exec(s, acts), id, put)
    decreases |acts|
  {
    hide SoleInv, Next, Enabled;
    if acts != [] {
      assert acts[0] in acts;
      SoleNext(s, acts[0], id, put);
      SoleAlways(Next(s, acts[0]), acts[1..], id, put);
    }
  }

  /** A put whose key no other request works on while it runs. Once it has answered Ok, body and
      sidecar are its own and stay as they are until another request for the key arrives. Nothing
      is asked of the state before: the key may be in disagreement, temp files may lie about. Any
      requests for other keys and any bucket deletions may overlap with it and with each other,
      and after the answer the server may die at any point. */
  lemma PutThenReadable(s: State, id: nat, put: PutReq, acts: seq<Action>, later: seq<Action>)
    requires Inv(s) && Enabled(s, Arrive(id, PutKey(put))) && Idle(s, put.name)
    requires Possible(Next(s, Arrive(id, PutKey(put))), acts) && Spared(acts, put.name)
    requires var s1 := Exec(Next(s, Arrive(id, PutKey(put))), acts);
      && id in s1.procs && s1.procs[id] == Ended(PutKey(put), Success(()))
      && Possible(s1, later) && Spared(later, put.name)
    ensures HoldsPut(Exec(Exec(Next(s, Arrive(id, PutKey(put))), acts), later).dir, put)
  {
    hide Exec, Possible, Inv, IsTempName, HoldsPut, Spared, EncodeKey;
    var s0 := Next(s, Arrive(id, PutKey(put)));
    InvNext(s, Arrive(id, PutKey(put)));
    assert SoleInv(s0, id, put);
    SoleAlways(s0, acts, id, put);
    var s1 := Exec(s0, acts);
    PutNameNoTemp(put);
    FilesPersist(s1, later, put.name);
    PlacedElsewhere(s1.dir, Exec(s1, later).dir, s1.procs[id], put);
  }

  /** As long as a put has its temp file in objects/, both directories exist, and from the
      creation of its sidecar's temp file on meta/ exists and the put cannot fail: in every run,
      overlapping requests and crashes included. */
  lemma DirsWhileWriting(s: State, acts: seq<Action>, id: nat, tmp: Str)
    requires Initial(s) && Possible(s, acts) && id in Exec(s, acts).procs
    ensures var (dir, p) := (Exec(s, acts).dir, Exec(s, acts).procs[id]);
      && (p.PutWrite? || p.PutCleanup? ==> HasObjects(dir) && HasMeta(dir))
      && (p.MetaWrite? || p.MetaRename? ==>
           var p' := Step(dir, p, tmp).1; HasMeta(dir) && (p'.Ended? ==> p'.outcome.Success?))
  {
    hide Exec, Possible, EncodeKey, IsTempName, Received;
    InitialInv(s);
    InvAlways(s, acts);
  }

  /** No delete of the key is at work together with a put of it. */
  ghost predicate NoClash(s: State, n: Str) {
    forall p, q :: p in s.procs && q in s.procs && ActiveOn(s.procs[p], n) && ActiveOn(s.procs[q], n) ==>
      !(RequestOf(s.procs[p]).PutKey? && RequestOf(s.procs[q]).DeleteKey?)
  }

  ghost predicate NoClashRun(s: State, acts: seq<Action>, n: Str)
    requires Possible(s, acts)
    decreases |acts|
  {
    NoClash(s, n) && (acts == [] || NoClashRun(Next(s, acts[0]), acts[1..], n))
  }

  predicate PastRename(p: Proc, n: Str) {
    (p.MetaCreate? || p.MetaWrite? || p.MetaRename?) && p.put.name == n
  }

  /** A put past the rename of its body still finds a body. */
  ghost predicate BodyStays(s: State, n: Str) {
    Inv(s) && forall p :: p in s.procs && PastRename(s.procs[p], n) ==> n in Objects(s.dir)
  }

  lemma StayNext(s: State, a: Action, n: Str)
    requires BodyStays(s, n) && NoClash(s, n) && Enabled(s, a) && !IsTempName(n)
    ensures BodyStays(Next(s, a), n)
  {
    hide OwnTemps, OwnDirs, Step, EncodeKey, IsTempName, Received, DirOrder, Distinct;
    InvNext(s, a);
    if a.Advance? {
      var p, s' := s.procs[a.id], Next(s, a);
      RenamePlaces(s.dir, p, a.tmp, n);
      if q :| q in s'.procs && PastRename(s'.procs[q], n) {
        if q != a.id || PastRename(p, n) {
          assert ActiveOn(s.procs[q], n) && RequestOf(s.procs[q]).PutKey?;
          assert Deletes(RequestOf(p), n) ==> p.Ended? || ActiveOn(p, n);
          if p.Ended? {
            EndedChangesNothing(s.dir, p, a.tmp);
          } else {
            StepRemovesOnlyOwn(s.dir, p, a.tmp, n);
          }
        }
      }
    }
  }

  lemma RenamePlaces(dir: Dir, p: Proc, tmp: Str, n: Str)
    ensures var (dir', p') := Step(dir, p, tmp); PastRename(p', n) && !PastRename(p, n) ==> n in Objects(dir')
  {
    hide EncodeKey, Received;
  }

  lemma {:induction false} BodyAlwaysStays(s: State, acts: seq<Action>, n: Str)
    requires BodyStays(s, n) && Possible(s, acts) && NoClashRun(s, acts, n) && !IsTempName(n)
    ensures BodyStays(Exec(s, acts), n)
    decreases |acts|
  {
    hide BodyStays, NoClash, Next, Enabled;
    if acts != [] {
      StayNext(s, acts[0], n);
      BodyAlwaysStays(Next(s, acts[0]), acts[1..], n);
    }
  }

  /** No bucket deletion is at work while a put of the key is past the rename of its body. */
  ghost predicate DropsApart(s: State, n: Str) {
    forall p, q :: p in s.procs && q in s.procs && PastRename(s.procs[p], n) && RequestOf(s.procs[q]).DropBucket? ==>
      s.procs[q].Ended?
  }

  ghost predicate DropsApartRun(s: State, acts: seq<Action>, n: Str)
    requires Possible(s, acts)
    decreases |acts|
  {
    DropsApart(s, n) && (acts == [] || DropsApartRun(Next(s, acts[0]), acts[1..], n))
  }

  /** A put past the rename of its body still finds meta/. */
  ghost predicate MetaStays(s: State, n: Str) {
    Inv(s) && forall p :: p in s.procs && PastRename(s.procs[p], n) ==> HasMeta(s.dir)
  }

  lemma MetaStaysNext(s: State, a: Action, n: Str)
    requires MetaStays(s, n) && DropsApart(s, n) && Enabled(s, a)
    ensures MetaStays(Next(s, a), n)
  {
    hide OwnTemps, OwnDirs, Step, EncodeKey, IsTempName, Received, Distinct;
    InvNext(s, a);
    if a.Advance? {
      var p, s' := s.procs[a.id], Next(s, a);
      RenamePlaces(s.dir, p, a.tmp, n);
      MetaRemoved(s.dir, p, a.tmp);
      if q :| q in s'.procs && PastRename(s'.procs[q], n) {
        if q == a.id && !PastRename(p, n) {
          assert HasMeta(s'.dir);
        } else {
          assert PastRename(s.procs[q], n);
        }
      }
    }
  }

  /** Only a bucket deletion removes meta/. */
  lemma MetaRemoved(dir: Dir, p: Proc, tmp: Str)
    ensures HasMeta(dir) && !HasMeta(Step(dir, p, tmp).0) ==> RequestOf(p).DropBucket? && !p.Ended?
  {
    hide EncodeKey, Received;
  }

  lemma {:induction false} MetaAlwaysStays(s: State, acts: seq<Action>, n: Str)
    requires MetaStays(s, n) && Possible(s, acts) && DropsApartRun(s, acts, n)
    ensures MetaStays(Exec(s, acts), n)
    decreases |acts|
  {
    hide MetaStays, DropsApart, Next, Enabled;
    if acts != [] {
      MetaStaysNext(s, acts[0], n);
      MetaAlwaysStays(Next(s, acts[0]), acts[1..], n);
    }
  }

  /** A put of the key that has its body in place finds its directories and cannot fail any more,
      in every run in which no delete of the key is at work together with a put of it, and in every
      run in which no bucket deletion is at work while a put is past its rename. Puts may overlap,
      and the server die, at any point. */
  lemma PlacedCannotFail(s: State, acts: seq<Action>, id: nat, tmp: Str, n: Str)
    requires Initial(s) && Possible(s, acts) && !IsTempName(n)
    requires NoClashRun(s, acts, n) || DropsApartRun(s, acts, n)
    requires id in Exec(s, acts).procs && PastRename(Exec(s, acts).procs[id], n)
    ensures var (dir, p) := (Exec(s, acts).dir, Exec(s, acts).procs[id]);
      && HasMeta(dir) && (NoClashRun(s, acts, n) ==> n in Objects(dir))
      && var p' := Step(dir, p, tmp).1; p'.Ended? ==> p'.outcome.Success?
  {
    hide Exec, Possible, NoClashRun, DropsApartRun, EncodeKey, IsTempName, Received;
    InitialInv(s);
    if NoClashRun(s, acts, n) {
      BodyAlwaysStays(s, acts, n);
    } else {
      MetaAlwaysStays(s, acts, n);
    }
  }
}
