/** What lies about: temp files belong to live requests, and a bucket at rest is well-formed, so
    that the listing meets nothing it cannot read. */
module TempFiles {
  import opened Wrappers
  import opened Bytes
  import opened KeyEncoding
  import opened Meta
  import opened DiskOps
  import opened Interleaving
  import opened Agreement
  import ObjectMap
  import Listing

  ghost predicate BodyOwned(s: State, t: Str) {
    exists id :: id in s.procs && BodyTemp(s.procs[id]) == Some(t)
  }

  ghost predicate MetaOwned(s: State, t: Str) {
    exists id :: id in s.procs && MetaTemp(s.procs[id]) == Some(t)
  }

  /** Every temp file in objects/ and meta/ belongs to a live process. */
  ghost predicate NoneStray(s: State) {
    && (forall t :: t in Objects(s.dir) && IsTempName(t) ==> BodyOwned(s, t))
    && (forall t :: t in Sidecars(s.dir) && IsTempName(t) ==> MetaOwned(s, t))
  }

  /** Where a temp file may come from, and that a process does not lose hold of its own. */
  lemma StepHoldsTemps(dir: Dir, p: Proc, tmp: Str, t: Str)
    requires OwnTemps(dir, p) && IsTempName(t)
    ensures var (dir', p') := Step(dir, p, tmp);
      && (t in Objects(dir') ==> BodyTemp(p') == Some(t) || (t in Objects(dir) && BodyTemp(p) != Some(t)))
      && (t in Sidecars(dir') ==> MetaTemp(p') == Some(t) || (t in Sidecars(dir) && MetaTemp(p) != Some(t)))
  {
    hide EncodeKey, IsTempName, Received;
    NameIsNoTemp(p, t);
  }

  lemma NoneStrayNext(s: State, a: Action)
    requires Inv(s) && NoneStray(s) && Enabled(s, a) && !a.Crash?
    ensures NoneStray(Next(s, a))
  {
    hide Step, OwnTemps, OwnDirs, EncodeKey, IsTempName, DirOrder, Distinct;
    var s' := Next(s, a);
    if a.Arrive? {
      forall id | id in s.procs ensures id in s'.procs && s'.procs[id] == s.procs[id] {
      }
    } else {
      forall t | IsTempName(t) && t in Objects(s'.dir) ensures BodyOwned(s', t) {
        StepHoldsTemps(s.dir, s.procs[a.id], a.tmp, t);
        if BodyTemp(s'.procs[a.id]) != Some(t) {
          var id :| id in s.procs && BodyTemp(s.procs[id]) == Some(t);
          assert s'.procs[id] == s.procs[id];
        }
      }
      forall t | IsTempName(t) && t in Sidecars(s'.dir) ensures MetaOwned(s', t) {
        StepHoldsTemps(s.dir, s.procs[a.id], a.tmp, t);
        if MetaTemp(s'.procs[a.id]) != Some(t) {
          var id :| id in s.procs && MetaTemp(s.procs[id]) == Some(t);
          assert s'.procs[id] == s.procs[id];
        }
      }
    }
  }

  ghost predicate CrashFree(acts: seq<Action>) {
    forall a :: a in acts ==> !a.Crash?
  }

  /** Temp files do not leak: in every run without a crash, overlapping requests, failing streams
      and bucket deletions included, each temp file is that of a live process. So once no put is
      under way, none is left, whether the puts succeeded or failed. */
  lemma {:induction false} TempsOwned(s: State, acts: seq<Action>)
    requires Inv(s) && NoneStray(s) && Possible(s, acts) && CrashFree(acts)
    ensures NoneStray(Exec(s, acts))
    decreases |acts|
  {
    hide Inv, NoneStray, Next, Enabled;
    if acts != [] {
      assert acts[0] in acts;
      NoneStrayNext(s, acts[0]);
      InvNext(s, acts[0]);
      TempsOwned(Next(s, acts[0]), acts[1..]);
    }
  }

  ghost predicate NoPutActive(s: State) {
    forall id :: id in s.procs && RequestOf(s.procs[id]).PutKey? ==> s.procs[id].Ended?
  }

  /** A crash is the only way for a temp file to stay behind. */
  lemma NoPutNoTemps(s: State, acts: seq<Action>)
    requires Inv(s) && NoneStray(s) && Possible(s, acts) && CrashFree(acts) && NoPutActive(Exec(s, acts))
    ensures forall t :: IsTempName(t) ==> t !in Objects(Exec(s, acts).dir) && t !in Sidecars(Exec(s, acts).dir)
  {
    hide Inv, Exec, Possible, IsTempName;
    TempsOwned(s, acts);
  }

  // ---- A bucket at rest ----

  /** A bucket that still has objects/ has .bucket.json, and no file has the empty name. */
  ghost predicate Furnished(dir: Dir) {
    && (HasObjects(dir) ==> dir.value.info)
    && [] !in Objects(dir)
  }

  lemma FurnishedStep(dir: Dir, p: Proc, tmp: Str)
    requires Furnished(dir) && OwnTemps(dir, p) && OwnDirs(dir, p) && Fresh(dir, tmp)
    ensures Furnished(Step(dir, p, tmp).0)
  {
    hide EncodeKey, Received;
  }

  lemma {:induction false} FurnishedAlways(s: State, acts: seq<Action>)
    requires Inv(s) && Furnished(s.dir) && Possible(s, acts)
    ensures Furnished(Exec(s, acts).dir)
    decreases |acts|
  {
    hide Step, OwnTemps, OwnDirs, Furnished, EncodeKey, IsTempName, DirOrder, Distinct;
    if acts != [] {
      if acts[0].Advance? {
        FurnishedStep(s.dir, s.procs[acts[0].id], acts[0].tmp);
      }
      InvNext(s, acts[0]);
      FurnishedAlways(Next(s, acts[0]), acts[1..]);
    }
  }

  /** Keys that arrive are text. */
  ghost predicate TextKeys(acts: seq<Action>) {
    forall id, put :: Arrive(id, PutKey(put)) in acts ==> put.Named() && ValidUtf8(put.key)
  }

  /** Overlapping requests on one key are compatible, for every key. */
  ghost predicate HarmlessToAll(s: State, acts: seq<Action>)
    requires Possible(s, acts)
  {
    forall n :: !IsTempName(n) ==> HarmlessRun(s, acts, n)
  }

  /** No put is under way, and no request is between the files of a key. */
  ghost predicate AtRest(s: State) {
    NoPutActive(s) && forall n :: !IsTempName(n) ==> Settled(s, n)
  }

  predicate GoodName(n: Str) {
    n != [] && DecodeKey(n).Success? && EncodeKey(DecodeKey(n).value) == Success(n)
  }

  lemma SoundAgrees(bd: BucketDir, n: Str)
    requires ObjectMap.SoundBucket(bd)
    ensures Agree(Some(bd), n)
  {
    hide EncodeKey, DecodeKey;
    StemOfSidecar(n);
    if n in bd.objects.value {
      assert ObjectMap.SoundObject(bd, n);
    }
    if SidecarName(n) in bd.meta.value {
      assert ObjectMap.OwnedSidecar(bd.objects.value, SidecarName(n));
    }
  }

  lemma SoundStart(bd: BucketDir)
    requires ObjectMap.SoundBucket(bd)
    ensures Initial(State(Some(bd), map[])) && NoneStray(State(Some(bd), map[])) && Furnished(Some(bd))
  {
    hide EncodeKey, DecodeKey, IsTempName;
    forall t | t in bd.objects.value ensures !IsTempName(t) && t != [] {
      assert ObjectMap.SoundObject(bd, t);
      if IsTempName(t) {
        EncodedNames(DecodeKey(t).value, DecodeKey(t).value);
      }
    }
    forall t | t in bd.meta.value ensures !IsTempName(t) {
      assert ObjectMap.OwnedSidecar(bd.objects.value, t);
      SidecarNoTemp(Stem(t));
    }
  }

  /** Every body is that of a key: one of the start, or one put on the way. */
  lemma NamesGood(bd: BucketDir, acts: seq<Action>, n: Str)
    requires ObjectMap.SoundBucket(bd)
    requires Possible(State(Some(bd), map[]), acts) && TextKeys(acts) && !IsTempName(n)
    requires n in Objects(Exec(State(Some(bd), map[]), acts).dir)
    ensures GoodName(n)
  {
    hide Exec, Possible, IsTempName, EncodeKey, DecodeKey, Received;
    var s := State(Some(bd), map[]);
    SoundStart(bd);
    InitialInv(s);
    FurnishedAlways(s, acts);
    AtomicVisibility(s, acts, n);
    if n in bd.objects.value {
      assert ObjectMap.SoundObject(bd, n);
    } else {
      var id, put :| Arrive(id, PutKey(put)) in acts && put.name == n;
      EncodeDecode(put.key);
    }
  }

  /** Every sidecar is named after some key. */
  lemma SidecarsNamed(bd: BucketDir, acts: seq<Action>, f: Str)
    requires ObjectMap.SoundBucket(bd)
    requires Possible(State(Some(bd), map[]), acts) && TextKeys(acts) && !IsTempName(f)
    requires f in Sidecars(Exec(State(Some(bd), map[]), acts).dir)
    ensures f == SidecarName(Stem(f)) && !IsTempName(Stem(f))
  {
    hide Exec, Possible, IsTempName, EncodeKey, DecodeKey, Received;
    var s := State(Some(bd), map[]);
    SoundStart(bd);
    AtomicVisibility(s, acts, f);
    if f in bd.meta.value {
      assert ObjectMap.OwnedSidecar(bd.objects.value, f);
      assert ObjectMap.SoundObject(bd, Stem(f));
      if IsTempName(Stem(f)) {
        EncodedNames(DecodeKey(Stem(f)).value, DecodeKey(Stem(f)).value);
      }
    } else {
      var id, put :| Arrive(id, PutKey(put)) in acts && SidecarName(put.name) == f;
      StemOfSidecar(put.name);
      PutNameNoTemp(put);
    }
  }

  /** The bucket a listing needs: a well-formed bucket stays well-formed. In every run without a
      crash in which overlapping requests on one key are compatible, once no put is under way and no
      request between the files of a key, and as long as objects/ has not been removed, the bucket
      is as the listing assumes: each file of objects/ is named by a key and has its sidecar, each
      sidecar its body, and nothing else. */
  lemma RestIsSound(bd: BucketDir, acts: seq<Action>)
    requires ObjectMap.SoundBucket(bd) && TextKeys(acts) && CrashFree(acts)
    requires var s := State(Some(bd), map[]);
      && Possible(s, acts) && HarmlessToAll(s, acts) && AtRest(Exec(s, acts)) && HasObjects(Exec(s, acts).dir)
    ensures ObjectMap.SoundBucket(Exec(State(Some(bd), map[]), acts).dir.value)
  {
    hide Exec, Possible, HarmlessRun, IsTempName, EncodeKey, DecodeKey, Agree, Settled;
    var s := State(Some(bd), map[]);
    var end := Exec(s, acts);
    SoundStart(bd);
    InitialInv(s);
    InvAlways(s, acts);
    FurnishedAlways(s, acts);
    NoPutNoTemps(s, acts);
    forall n | n in Objects(end.dir) ensures ObjectMap.SoundObject(end.dir.value, n) {
      NamesGood(bd, acts, n);
      SoundAgrees(bd, n);
      KeysAgreeAtRest(s, acts, n);
      AgreeReads(end.dir, n);
    }
    forall f | f in Sidecars(end.dir) ensures ObjectMap.OwnedSidecar(Objects(end.dir), f) {
      SidecarsNamed(bd, acts, f);
      SoundAgrees(bd, Stem(f));
      KeysAgreeAtRest(s, acts, Stem(f));
      AgreeReads(end.dir, Stem(f));
    }
  }

  /** So every listing of a bucket at rest answers, with the page of its keys. */
  lemma {:induction false} ListingAtRest(bd: BucketDir, acts: seq<Action>, names: seq<Str>, req: Listing.Request)
    requires ObjectMap.SoundBucket(bd) && TextKeys(acts) && CrashFree(acts)
    requires var s := State(Some(bd), map[]);
      && Possible(s, acts) && HarmlessToAll(s, acts) && AtRest(Exec(s, acts)) && HasObjects(Exec(s, acts).dir)
    requires multiset(names) == multiset(Objects(Exec(State(Some(bd), map[]), acts).dir).Keys)
    requires req.token != Some(Listing.Malformed)
    ensures var end := Exec(State(Some(bd), map[]), acts).dir;
      && ObjectMap.SoundBucket(end.value)
      && Listing.Answer(names, Sidecars(end), req)
           == Success(ObjectMap.ListBucket(ObjectMap.ViewBucket(end.value), req))
  {
    hide Exec, Possible, HarmlessToAll, ObjectMap.SoundBucket, Listing.Answer, AtRest;
    RestIsSound(bd, acts);
    ObjectMap.SoundDirs(Exec(State(Some(bd), map[]), acts).dir.value);
    ObjectMap.ListBucketRefines(Exec(State(Some(bd), map[]), acts).dir.value, names, req);
  }

  lemma AgreeReads(dir: Dir, n: Str)
    requires Agree(dir, n) && HasObjects(dir) && HasMeta(dir)
    ensures n in Objects(dir) && GoodName(n) ==> ObjectMap.SoundObject(dir.value, n)
    ensures SidecarName(n) in Sidecars(dir) ==> n in Objects(dir)
  {
    hide EncodeKey, DecodeKey;
  }
}
