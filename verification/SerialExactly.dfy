/** Exactly which sets of concurrent requests on a well-formed bucket may end in a way that no order
    of them explains. */
module SerialExactly {
  import opened Wrappers
  import opened Bytes
  import opened KeyEncoding
  import opened Meta
  import opened DiskOps
  import opened Interleaving
  import opened Agreement
  import opened Alone
  import opened Serial
  import opened Serializability
  import opened Overlaps
  import TempFiles
  import ObjectMap

  /** Requests none of which has begun, and none of which is about the empty key. */
  ghost predicate AllAtFirst(procs: map<nat, Proc>) {
    forall id :: id in procs ==>
      procs[id] == First(RequestOf(procs[id])) && RequestOf(procs[id]).Target() != Some([])
  }

  /** Each request has been answered or has not begun. */
  ghost predicate WholeRun(s: State, end: State) {
    && end.procs.Keys == s.procs.Keys
    && forall id :: id in s.procs ==> end.procs[id] == s.procs[id] || end.procs[id].Ended?
  }

  /** The answered requests, one after the other in this order, get their answers and leave the
      bucket as it is. */
  ghost predicate Explains(d: Disk, b: Str, end: State, done: seq<Completion>, d': Disk) {
    && Replays(d, b, done, d') && DirOf(d', b) == end.dir
    && (forall id :: id in end.procs && end.procs[id].Ended? ==>
         Completion(id, RequestOf(end.procs[id]), end.procs[id].outcome) in done)
    && (forall c :: c in done ==> c.id in end.procs && end.procs[c.id] == Ended(c.request, c.outcome))
    && (forall i, j :: 0 <= i < j < |done| ==> done[i].id != done[j].id)
  }

  /** A schedule that no order explains. */
  ghost predicate GoesWrong(d: Disk, b: Str, s: State, acts: seq<Action>) {
    && Possible(s, acts) && OnlySteps(acts) && WholeRun(s, Exec(s, acts))
    && forall done, d' :: !Explains(d, b, Exec(s, acts), done, d')
  }

  ghost predicate CanGoWrong(d: Disk, b: Str, s: State) {
    exists acts :: GoesWrong(d, b, s, acts)
  }

  // ---- The condition ----

  ghost predicate BeingDeleted(procs: map<nat, Proc>, g: Str) {
    exists id :: id in procs && Deletes(RequestOf(procs[id]), g)
  }

  /** A bucket deletion that may find objects/ empty, in company that minds: every object has a delete
      at work, and there is one, or there is another request that is not a delete. */
  ghost predicate UnsafeDrop(s: State, id: nat) {
    && id in s.procs && RequestOf(s.procs[id]).DropBucket?
    && (forall g :: g in Objects(s.dir) ==> BeingDeleted(s.procs, g))
    && (Objects(s.dir) != map[] || exists q :: Minds(s, id, q))
  }

  ghost predicate Minds(s: State, id: nat, q: nat) {
    q in s.procs && q != id && !RequestOf(s.procs[q]).DeleteKey?
  }

  ghost predicate Compatibles(procs: map<nat, Proc>) {
    Fitting(ByEffect, procs)
  }

  // ---- Otherwise every schedule is explained ----

  ghost predicate WellFormed(d: Disk, b: Str, s: State) {
    && b in d.buckets && ObjectMap.SoundBucket(d.buckets[b]) && s.dir == DirOf(d, b)
    && Inv(s) && AllAtFirst(s.procs)
  }

  lemma {:induction false} KeptIsCivil(s: State, acts: seq<Action>, g: Str)
    requires Possible(s, acts) && OnlySteps(acts)
    ensures CivilRun(ByEffect, s, acts, Some(g))
    decreases |acts|
  {
    hide Next, Enabled, ToItself, ShowsObject;
    if acts != [] {
      assert acts[0] in acts;
      KeptIsCivil(Next(s, acts[0]), acts[1..], g);
    }
  }

  ghost predicate NoDropAtWork(procs: map<nat, Proc>) {
    forall id :: id in procs ==> !RequestOf(procs[id]).DropBucket?
  }

  lemma {:induction false} NoDropIsCivil(s: State, acts: seq<Action>)
    requires Possible(s, acts) && OnlySteps(acts) && NoDropAtWork(s.procs)
    ensures CivilRun(ByEffect, s, acts, None)
    decreases |acts|
  {
    hide Step, IsTempName, ToItself, ShowsObject;
    if acts != [] {
      assert acts[0] in acts;
      SameRequest(s.dir, s.procs[acts[0].id], acts[0].tmp);
      NoDropIsCivil(Next(s, acts[0]), acts[1..]);
    }
  }

  /** One bucket deletion among deletes that find nothing. */
  ghost predicate LonelyDrop(s: State, id: nat) {
    && Inv(s) && Objects(s.dir) == map[] && ToItself(s, id)
    && id in s.procs && RequestOf(s.procs[id]).DropBucket?
  }

  lemma LonelyNext(s: State, id: nat, a: Action)
    requires LonelyDrop(s, id) && Enabled(s, a) && a.Advance?
    ensures LonelyDrop(Next(s, a), id)
  {
    hide Step, IsTempName, EncodeKey, OwnTemps, OwnDirs, DirOrder, Distinct;
    InvNext(s, a);
    var p := s.procs[a.id];
    SameRequest(s.dir, p, a.tmp);
    if a.id == id {
      DropRemovesNoFile(s.dir, p, a.tmp);
    } else if p.Ended? {
      EndedStays(s, a);
    } else {
      Named(s, a.id);
      BystanderSteps(Disk(map[], map[]), [], s.dir, p, a.tmp);
    }
  }

  lemma {:induction false} LonelyIsCivil(s: State, acts: seq<Action>, id: nat)
    requires Possible(s, acts) && OnlySteps(acts) && LonelyDrop(s, id)
    ensures CivilRun(ByEffect, s, acts, None)
    decreases |acts|
  {
    hide Next, Inv, ShowsObject;
    if acts != [] {
      assert acts[0] in acts;
      LonelyNext(s, id, acts[0]);
      LonelyIsCivil(Next(s, acts[0]), acts[1..], id);
      assert acts[0].id != id ==> Bystander(s.procs[acts[0].id]);
    }
  }

  /** Every run is civil, with an object that stays or without. */
  lemma SafeIsCivil(d: Disk, b: Str, s: State, acts: seq<Action>)
    returns (kept: Option<Str>)
    requires WellFormed(d, b, s) && Possible(s, acts) && OnlySteps(acts)
    requires forall id :: !UnsafeDrop(s, id)
    ensures CivilRun(ByEffect, s, acts, kept) && Keeps(s, s.dir, kept)
  {
    hide Inv, Exec, Possible, CivilRun, OnlySteps, IsTempName, EncodeKey, DecodeKey, DirOf, ObjectMap.SoundBucket;
    kept := None;
    if id :| id in s.procs && RequestOf(s.procs[id]).DropBucket? {
      if g :| g in Objects(s.dir) && !BeingDeleted(s.procs, g) {
        kept := Some(g);
        KeptIsCivil(s, acts, g);
        SoundNames(d.buckets[b], g);
        SoundDir(d, b);
      } else {
        assert !UnsafeDrop(s, id);
        forall q | q in s.procs && q != id ensures Bystander(s.procs[q]) {
          assert !Minds(s, id, q);
          assert s.procs[q] == First(RequestOf(s.procs[q]));
        }
        LonelyIsCivil(s, acts, id);
      }
    } else {
      NoDropIsCivil(s, acts);
    }
  }

  lemma SoundDir(d: Disk, b: Str)
    requires b in d.buckets && ObjectMap.SoundBucket(d.buckets[b])
    ensures DirOf(d, b) == Some(d.buckets[b]) && HasObjects(DirOf(d, b)) && HasMeta(DirOf(d, b))
    ensures Objects(DirOf(d, b)) == d.buckets[b].objects.value && Sidecars(DirOf(d, b)) == d.buckets[b].meta.value
  {
    hide ObjectMap.SoundObject;
  }

  lemma SoundNames(bd: BucketDir, g: Str)
    requires ObjectMap.SoundBucket(bd)
    ensures IsTempName(g) ==> g !in bd.objects.value && g !in bd.meta.value
  {
    hide IsTempName, ObjectMap.SoundBucket;
    TempFiles.SoundStart(bd);
    ObjectMap.SoundDirs(bd);
    assert !TempFiles.BodyOwned(State(Some(bd), map[]), g) && !TempFiles.MetaOwned(State(Some(bd), map[]), g);
  }

  lemma SafeFollows(d: Disk, b: Str, s: State, kept: Option<Str>)
    requires WellFormed(d, b, s) && Compatibles(s.procs) && Keeps(s, s.dir, kept)
    ensures Follows(ByEffect, s, DirOf(d, b), kept)
  {
    hide Inv, Keeps, Fitting, ObjectMap.SoundBucket, DirOf;
    forall id | id in s.procs ensures Untaken(s.procs[id]) {
      assert s.procs[id] == First(RequestOf(s.procs[id]));
    }
    EqualIsQuiet(ByEffect, s);
  }

  lemma WholeIsFree(s: State, end: State)
    requires AllAtFirst(s.procs) && WholeRun(s, end)
    ensures AllHandsFree(end.procs)
    ensures forall id :: id in end.procs ==> (Settles(ByEffect, end.procs[id]) <==> end.procs[id].Ended?)
    ensures forall id :: id in s.procs ==> !Settles(ByEffect, s.procs[id])
  {
    forall id | id in s.procs ensures !Settles(ByEffect, s.procs[id]) && HandsFree(s.procs[id]) {
      assert s.procs[id] == First(RequestOf(s.procs[id]));
    }
    assert forall id :: id in end.procs <==> id in s.procs.Keys;
  }

  lemma SafeExplains(d: Disk, b: Str, s: State, acts: seq<Action>)
    returns (done: seq<Completion>, d': Disk)
    requires WellFormed(d, b, s) && Compatibles(s.procs) && forall id :: !UnsafeDrop(s, id)
    requires Possible(s, acts) && OnlySteps(acts) && WholeRun(s, Exec(s, acts))
    ensures Explains(d, b, Exec(s, acts), done, d')
  {
    hide Inv, Exec, Possible, CivilRun, Completed, Replays, DirOf, ObjectMap.SoundBucket, Follows, AllAtFirst, Quiet;
    hide HandsFree, WholeRun, Keeps, Fitting, UnsafeDrop, Settles;
    var kept := SafeIsCivil(d, b, s, acts);
    SafeFollows(d, b, s, kept);
    d' := FollowsAlways(ByEffect, s, d, b, acts, kept);
    done := Completed(ByEffect, s, acts);
    var end := Exec(s, acts);
    WholeIsFree(s, end);
    QuietAtEnd(ByEffect, end, DirOf(d', b), kept);
    SameDirs(ByEffect, end, DirOf(d', b));
    ExplainedBy(s, acts);
  }

  lemma SafeIsExplained(d: Disk, b: Str, s: State, acts: seq<Action>)
    requires WellFormed(d, b, s) && Compatibles(s.procs) && forall id :: !UnsafeDrop(s, id)
    ensures !GoesWrong(d, b, s, acts)
  {
    hide WellFormed, Exec, Possible, OnlySteps, WholeRun, Compatibles, UnsafeDrop, Explains;
    if GoesWrong(d, b, s, acts) {
      var done, d' := SafeExplains(d, b, s, acts);
    }
  }

  /** The order of effects lists exactly the answered requests. */
  lemma ExplainedBy(s: State, acts: seq<Action>)
    requires Possible(s, acts) && OnlySteps(acts) && AllAtFirst(s.procs) && WholeRun(s, Exec(s, acts))
    ensures var end, done := Exec(s, acts), Completed(ByEffect, s, acts);
      && (forall id :: id in end.procs && end.procs[id].Ended? ==>
           Completion(id, RequestOf(end.procs[id]), end.procs[id].outcome) in done)
      && (forall c :: c in done ==> c.id in end.procs && end.procs[c.id] == Ended(c.request, c.outcome))
      && (forall i, j :: 0 <= i < j < |done| ==> done[i].id != done[j].id)
  {
    hide Exec, Possible, Completed, AllAtFirst, Settles, OutcomeOf, WholeRun, PlacedOnce;
    var end, done := Exec(s, acts), Completed(ByEffect, s, acts);
    WholeIsFree(s, end);
    forall id ensures PlacedOnce(ByEffect, s.procs, end.procs, done, id) {
      RunPlaces(ByEffect, s, acts, id);
    }
    forall id | id in end.procs && end.procs[id].Ended?
      ensures Completion(id, RequestOf(end.procs[id]), end.procs[id].outcome) in done
    {
      PlacedEnded(s.procs, end.procs, done, id);
    }
    forall c | c in done ensures c.id in end.procs && end.procs[c.id] == Ended(c.request, c.outcome) {
      PlacedEnded(s.procs, end.procs, done, c.id);
      EndedIs(end.procs[c.id]);
    }
    forall i, j | 0 <= i < j < |done| ensures done[i].id != done[j].id {
      PlacedApart(s.procs, end.procs, done, i, j);
    }
  }

  lemma EndedIs(p: Proc)
    requires p.Ended?
    ensures p == Ended(RequestOf(p), p.outcome)
  {
  }

  lemma PlacedEnded(before: map<nat, Proc>, end: map<nat, Proc>, done: seq<Completion>, id: nat)
    requires PlacedOnce(ByEffect, before, end, done, id)
    requires id in before ==> !Settles(ByEffect, before[id])
    requires id in end ==> (Settles(ByEffect, end[id]) <==> end[id].Ended?)
    ensures id in end && end[id].Ended? ==> Completion(id, RequestOf(end[id]), end[id].outcome) in done
    ensures forall c :: c in done && c.id == id ==>
      id in end && end[id].Ended? && c == Completion(id, RequestOf(end[id]), end[id].outcome)
  {
    hide Settles;
    forall c | c in done && c.id == id
      ensures id in end && end[id].Ended? && c == Completion(id, RequestOf(end[id]), end[id].outcome)
    {
      var own := Completion(id, RequestOf(end[id]), end[id].outcome);
      assert own in done;
      var i :| 0 <= i < |done| && done[i] == c;
      var j :| 0 <= j < |done| && done[j] == own;
      OnePlace(done, i, j, id);
    }
  }

  lemma OnePlace(done: seq<Completion>, i: nat, j: nat, id: nat)
    requires i < |done| && j < |done| && done[i].id == done[j].id == id
    requires forall i, j :: 0 <= i < j < |done| && done[i].id == id ==> done[j].id != id
    ensures i == j
  {
  }

  lemma PlacedApart(before: map<nat, Proc>, end: map<nat, Proc>, done: seq<Completion>, i: nat, j: nat)
    requires i < j < |done| && PlacedOnce(ByEffect, before, end, done, done[i].id)
    ensures done[i].id != done[j].id
  {
  }

  // ---- Incompatible requests ----

  lemma {:induction false} ReplaysAgree(d: Disk, b: Str, done: seq<Completion>, d': Disk, n: Str)
    requires Replays(d, b, done, d') && DirOrder(DirOf(d, b)) && Agree(DirOf(d, b), n)
    requires forall c :: c in done ==> c.request.Named()
    ensures Agree(DirOf(d', b), n)
    decreases |done|
  {
    hide Agree, Sequentially, DirOf, DirOrder, EncodeKey;
    if done != [] {
      var request := done[0].request;
      assert done[0] in done;
      if request.Target() == Some(n) {
        OwnAgrees(d, b, request, n);
      } else {
        OtherAgrees(d, b, request, n);
      }
      ReplaysAgree(Sequentially(d, b, request).0, b, done[1..], d', n);
    }
  }

  lemma ExplainsNamed(d: Disk, b: Str, s: State, acts: seq<Action>, done: seq<Completion>, d': Disk)
    requires Inv(s) && Possible(s, acts) && Explains(d, b, Exec(s, acts), done, d')
    ensures forall c :: c in done ==> c.request.Named()
  {
    hide Exec, Possible, Inv, EncodeKey, DirOf, Replays;
    InvAlways(s, acts);
    forall c | c in done ensures c.request.Named() {
      Named(Exec(s, acts), c.id);
    }
  }

  lemma TwoTemp(dir: Dir, bd: BucketDir)
    returns (t: Str, u: Str)
    requires dir == Some(bd) && ObjectMap.SoundBucket(bd)
    ensures TwoTemps(dir, t, u)
  {
    hide ObjectMap.SoundBucket;
    t, u := [DOT, 116, 109, 112, 97], [DOT, 116, 109, 112, 98];
    assert IsTempName(t) && IsTempName(u);
    SoundNames(bd, t);
    SoundNames(bd, u);
    ObjectMap.SoundDirs(bd);
    assert t[4] != u[4];
  }

  lemma PairIsWhole(s: State, end: State, first: nat, second: nat)
    requires first in s.procs && second in s.procs && OthersStay(s, end, first, second)
    requires Answered(end, first).Some? && Answered(end, second).Some?
    ensures WholeRun(s, end)
  {
  }

  lemma IncompatibleGoesWrong(d: Disk, b: Str, s: State)
    requires WellFormed(d, b, s) && !Compatibles(s.procs)
    ensures CanGoWrong(d, b, s)
  {
    hide Inv, Exec, Possible, DirOf, ObjectMap.SoundBucket, Agree, Compatible, IsTempName, EncodeKey, GoesWrong;
    hide TwoTemps, OnlySteps, Explains, WholeRun, BothOk, Spared, WholeRequests;
    var first, second, n :| first in s.procs && second in s.procs && first != second
      && ActiveOn(s.procs[first], n) && ActiveOn(s.procs[second], n)
      && !Fits(ByEffect, RequestOf(s.procs[first]), RequestOf(s.procs[second]));
    SoundDir(d, b);
    var t, u := TwoTemp(s.dir, d.buckets[b]);
    var acts := PairDisagrees(s, n, first, second, t, u);
    TempFiles.SoundAgrees(d.buckets[b], n);
    BothEnded(s, Exec(s, acts), first, second);
    PairIsWhole(s, Exec(s, acts), first, second);
    ApartGoesWrong(d, b, s, acts, n);
  }

  lemma BothEnded(s: State, end: State, first: nat, second: nat)
    requires BothOk(s, end, first, second)
    ensures OthersStay(s, end, first, second) && Answered(end, first).Some? && Answered(end, second).Some?
  {
  }

  lemma ApartGoesWrong(d: Disk, b: Str, s: State, acts: seq<Action>, n: Str)
    requires WellFormed(d, b, s) && EndsApart(s, acts, n) && OnlySteps(acts) && WholeRun(s, Exec(s, acts))
    requires Agree(s.dir, n)
    ensures GoesWrong(d, b, s, acts)
  {
    hide Exec, Possible, DirOf, ObjectMap.SoundBucket, Agree, OwnTemps, OwnDirs, Distinct, EncodeKey, Replays;
    forall done, d' ensures !Explains(d, b, Exec(s, acts), done, d') {
      if Explains(d, b, Exec(s, acts), done, d') {
        ExplainsNamed(d, b, s, acts, done, d');
        ReplaysAgree(d, b, done, d', n);
      }
    }
  }

  // ---- Bucket deletions that go wrong ----

  /** Two requests that have answered, in any order that explains them. */
  lemma OneOrTheOther(d: Disk, b: Str, end: State, done: seq<Completion>, d': Disk, s: State, first: nat, second: nat)
    requires Explains(d, b, end, done, d') && OthersStay(s, end, first, second) && first != second
    requires first in s.procs && second in s.procs && Answered(end, first).Some? && Answered(end, second).Some?
    requires forall id :: id in s.procs ==> !s.procs[id].Ended?
    ensures var (x, y) := (RequestOf(s.procs[first]), RequestOf(s.procs[second]));
      var (rx, ry) := (Answered(end, first).value, Answered(end, second).value);
      RequestOf(end.procs[first]) == x && RequestOf(end.procs[second]) == y ==>
        InOrder(d, b, x, rx, y, ry) || InOrder(d, b, y, ry, x, rx)
  {
    hide Sequentially, DirOf;
    var c1 := Completion(first, RequestOf(end.procs[first]), Answered(end, first).value);
    var c2 := Completion(second, RequestOf(end.procs[second]), Answered(end, second).value);
    assert forall id :: id in end.procs <==> id in s.procs.Keys;
    assert c1 in done && c2 in done;
    forall c | c in done ensures c == c1 || c == c2 {
      assert c.id in end.procs && end.procs[c.id].Ended?;
      EndedIs(end.procs[c.id]);
    }
    TwoInAll(done, c1, c2);
    if done == [c1, c2] {
      ReplaysTwo(d, b, c1, c2, d');
    } else {
      ReplaysTwo(d, b, c2, c1, d');
    }
  }

  lemma ReplaysTwo(d: Disk, b: Str, c1: Completion, c2: Completion, d': Disk)
    requires Replays(d, b, [c1, c2], d')
    ensures InOrder(d, b, c1.request, c1.outcome, c2.request, c2.outcome)
  {
    hide Sequentially;
    assert [c1, c2][1..] == [c2];
  }

  lemma TwoInAll(done: seq<Completion>, c1: Completion, c2: Completion)
    requires c1 in done && c2 in done && c1.id != c2.id && forall c :: c in done ==> c == c1 || c == c2
    requires forall i, j :: 0 <= i < j < |done| ==> done[i].id != done[j].id
    ensures done == [c1, c2] || done == [c2, c1]
  {
    var i :| 0 <= i < |done| && done[i] == c1;
    var j :| 0 <= j < |done| && done[j] == c2;
    if |done| > 2 {
      ThirdIsAnother(done, c1, c2);
    }
    assert |done| == 2 && {i, j} == {0, 1};
  }

  lemma ThirdIsAnother(done: seq<Completion>, c1: Completion, c2: Completion)
    requires |done| > 2 && forall i, j :: 0 <= i < j < |done| ==> done[i].id != done[j].id
    ensures exists c :: c in done && c != c1 && c != c2
  {
    assert done[0] in done && done[1] in done && done[2] in done;
    assert done[0].id != done[1].id && done[0].id != done[2].id && done[1].id != done[2].id;
  }

  /** A schedule of two of the requests whose answers neither order gives. */
  lemma PairGoesWrong(d: Disk, b: Str, s: State, acts: seq<Action>, first: nat, second: nat)
    requires WellFormed(d, b, s) && Possible(s, acts) && OnlySteps(acts)
    requires first in s.procs && second in s.procs && first != second
    requires OthersStay(s, Exec(s, acts), first, second)
    requires Answered(Exec(s, acts), first).Some? && Answered(Exec(s, acts), second).Some?
    requires var (x, y) := (RequestOf(s.procs[first]), RequestOf(s.procs[second]));
      var (rx, ry) := (Answered(Exec(s, acts), first).value, Answered(Exec(s, acts), second).value);
      !InOrder(d, b, x, rx, y, ry) && !InOrder(d, b, y, ry, x, rx)
    ensures GoesWrong(d, b, s, acts)
  {
    hide Exec, Possible, DirOf, ObjectMap.SoundBucket, Inv, EncodeKey, Replays, InOrder, Explains, Answered, OthersStay;
    var end := Exec(s, acts);
    PairIsWhole(s, end, first, second);
    RequestsStay(s, acts, first);
    RequestsStay(s, acts, second);
    forall id | id in s.procs ensures !s.procs[id].Ended? {
      assert s.procs[id] == First(RequestOf(s.procs[id]));
    }
    forall done, d' ensures !Explains(d, b, end, done, d') {
      if Explains(d, b, end, done, d') {
        OneOrTheOther(d, b, end, done, d', s, first, second);
      }
    }
  }

  lemma {:induction false} RequestsStay(s: State, acts: seq<Action>, id: nat)
    requires Possible(s, acts) && OnlySteps(acts) && id in s.procs
    ensures id in Exec(s, acts).procs && RequestOf(Exec(s, acts).procs[id]) == RequestOf(s.procs[id])
    decreases |acts|
  {
    hide Step, IsTempName;
    if acts != [] {
      assert acts[0] in acts;
      SameRequest(s.dir, s.procs[acts[0].id], acts[0].tmp);
      RequestsStay(Next(s, acts[0]), acts[1..], id);
    }
  }

  /** An empty bucket, a bucket deletion, and a put or a second deletion. */
  lemma EmptyGoesWrong(d: Disk, b: Str, s: State, id: nat, q: nat)
    requires WellFormed(d, b, s) && id in s.procs && RequestOf(s.procs[id]).DropBucket? && Minds(s, id, q)
    requires Objects(s.dir) == map[]
    ensures CanGoWrong(d, b, s)
  {
    hide Exec, Possible, DirOf, ObjectMap.SoundBucket, EncodeKey, InOrder, Answered, OthersStay, OnlySteps, GoesWrong;
    hide TwoTemps, IsTempName, Received, OwnTemps, OwnDirs, Distinct;
    SoundDir(d, b);
    EmptyHasNoSidecars(d.buckets[b]);
    var t, u := TwoTemp(s.dir, d.buckets[b]);
    TempsAre(s.dir, t, u);
    assert s.procs[id] == First(RequestOf(s.procs[id])) && s.procs[q] == First(RequestOf(s.procs[q]));
    Named(s, q);
    if RequestOf(s.procs[q]).DropBucket? {
      var acts := DropUnderDrop(d, b, s, q, id, u);
      PairGoesWrong(d, b, s, acts, q, id);
    } else {
      var put := RequestOf(s.procs[q]).put;
      if Received(put.chunks).Some? {
        var acts := DropUnderPut(d, b, s, q, put, id, u);
        PairGoesWrong(d, b, s, acts, q, id);
      } else {
        var acts := DropUnderBrokenPut(d, b, s, q, put, id, t, u);
        PairGoesWrong(d, b, s, acts, q, id);
      }
    }
  }

  lemma TempsAre(dir: Dir, t: Str, u: Str)
    requires TwoTemps(dir, t, u)
    ensures IsTempName(u) && Fresh(dir, u)
  {
  }

  lemma EmptyHasNoSidecars(bd: BucketDir)
    requires ObjectMap.SoundBucket(bd) && bd.objects.value == map[]
    ensures bd.meta.value == map[]
  {
    ObjectMap.EmptyView(bd);
  }

  // ---- The last keys of a bucket ----

  /** Both directories or none, and no sidecar without its body. */
  predicate Tidy(dir: Dir) {
    dir.Some? ==> HasObjects(dir) && HasMeta(dir)
                  && forall f :: f in Sidecars(dir) ==> ObjectMap.OwnedSidecar(Objects(dir), f)
  }

  lemma PutTidy(d: Disk, b: Str, request: Request)
    requires Tidy(DirOf(d, b)) && request.PutKey? && request.Named()
    ensures Tidy(DirOf(Sequentially(d, b, request).0, b))
  {
    hide EncodeKey, Received, SidecarName, Stem;
    var dir, dir' := DirOf(d, b), DirOf(Sequentially(d, b, request).0, b);
    StemOfSidecar(request.put.name);
    forall f | f in Sidecars(dir') ensures ObjectMap.OwnedSidecar(Objects(dir'), f) {
      assert f in Sidecars(dir) ==> ObjectMap.OwnedSidecar(Objects(dir), f);
    }
  }

  lemma DeleteTidy(d: Disk, b: Str, request: Request)
    requires Tidy(DirOf(d, b)) && request.DeleteKey? && request.Named()
    ensures Tidy(DirOf(Sequentially(d, b, request).0, b))
  {
    hide EncodeKey, SidecarName, Stem;
    var dir, dir' := DirOf(d, b), DirOf(Sequentially(d, b, request).0, b);
    forall f | f in Sidecars(dir') ensures ObjectMap.OwnedSidecar(Objects(dir'), f) {
      assert ObjectMap.OwnedSidecar(Objects(dir), f);
    }
  }

  lemma DropTidy(d: Disk, b: Str)
    requires Tidy(DirOf(d, b))
    ensures Tidy(DirOf(Sequentially(d, b, DropBucket).0, b))
  {
    hide SidecarName, Stem;
    var dir := DirOf(d, b);
    if Sidecars(dir) != map[] {
      var f :| f in Sidecars(dir);
      assert ObjectMap.OwnedSidecar(Objects(dir), f);
      assert Objects(dir) != map[];
    }
  }

  lemma {:induction false} ReplaysTidy(d: Disk, b: Str, done: seq<Completion>, d': Disk)
    requires Replays(d, b, done, d') && Tidy(DirOf(d, b)) && forall c :: c in done ==> c.request.Named()
    ensures Tidy(DirOf(d', b))
    decreases |done|
  {
    hide Tidy, Sequentially, DirOf, EncodeKey;
    if done != [] {
      var request := done[0].request;
      assert done[0] in done;
      if request.PutKey? {
        PutTidy(d, b, request);
      } else if request.DeleteKey? {
        DeleteTidy(d, b, request);
      } else {
        DropTidy(d, b);
      }
      ReplaysTidy(Sequentially(d, b, request).0, b, done[1..], d');
    }
  }

  lemma SoundIsTidy(bd: BucketDir)
    requires ObjectMap.SoundBucket(bd)
    ensures Tidy(Some(bd)) && forall g :: g in bd.objects.value ==> SidecarName(g) in bd.meta.value
  {
    forall g | g in bd.objects.value ensures SidecarName(g) in bd.meta.value {
      assert ObjectMap.SoundObject(bd, g);
    }
  }

  /** Each object of the bucket has its sidecar and a delete that has not begun. */
  ghost predicate Doomed(s: State, id: nat) {
    && HasObjects(s.dir) && HasMeta(s.dir) && id in s.procs && s.procs[id].BucketCheck?
    && (forall g :: g in Objects(s.dir) ==> SidecarName(g) in Sidecars(s.dir) && DeleteReady(s.procs, g))
  }

  ghost predicate DeleteReady(procs: map<nat, Proc>, g: Str) {
    exists q, key :: q in procs && ReadyToDelete(procs[q], key, g)
  }

  predicate ReadyToDelete(p: Proc, key: Str, g: Str) {
    p == DeleteBody(key, g) && EncodeKey(key) == Success(g) && g != []
  }

  /** The last delete, with the bucket deletion between its removals. */
  lemma LastOneGoes(s: State, id: nat, q: nat, key: Str, g: Str, u: Str)
    returns (acts: seq<Action>)
    requires Doomed(s, id) && Objects(s.dir).Keys == {g} && Fresh(s.dir, u)
    requires q in s.procs && ReadyToDelete(s.procs[q], key, g)
    ensures Possible(s, acts) && OnlySteps(acts) && WholeRun(s, Exec(s, acts))
    ensures Exec(s, acts).dir.Some? && !HasObjects(Exec(s, acts).dir)
  {
    hide Exec, Possible, EncodeKey, IsTempName, SidecarName, OnlySteps, WholeRun, Sequentially;
    assert g in Objects(s.dir);
    var d := Disk(map[[] := s.dir.value], map[]);
    var d';
    acts, d' := DropUnderDelete(d, [], s, q, key, g, id, u);
    PairIsWhole(s, Exec(s, acts), q, id);
    NoneLeft(d', []);
  }

  /** One delete, from its start to its answer. */
  lemma OneGoes(s: State, id: nat, q: nat, key: Str, g: Str, u: Str)
    returns (acts: seq<Action>, s': State)
    requires Doomed(s, id) && g in Objects(s.dir) && Fresh(s.dir, u)
    requires q in s.procs && ReadyToDelete(s.procs[q], key, g)
    ensures Leads(s, acts, s') && OnlySteps(acts) && Doomed(s', id) && Fresh(s'.dir, u)
    ensures Objects(s'.dir) == Objects(s.dir) - {g}
    ensures s'.procs == s.procs[q := Ended(DeleteKey(key, g), Success(()))]
  {
    hide EncodeKey, IsTempName, Advances, SidecarName, OnlySteps, Takes, Leads;
    DeletesBoth(s.dir, key, g, u);
    var dir := SetMeta(SetObjects(s.dir, Objects(s.dir) - {g}), Sidecars(s.dir) - {SidecarName(g)});
    s' := State(dir, s.procs[q := Ended(DeleteKey(key, g), Success(()))]);
    acts := Advances(q, [u, u]);
    TakesLeads(s, q, [u, u], dir, Ended(DeleteKey(key, g), Success(())));
    AdvancesAreSteps(q, [u, u]);
    StillDoomed(s, id, q, key, g);
  }

  /** The deletes run one after the other, and the bucket deletion between the removals of the last:
      objects/ is gone and the bucket stays. */
  lemma {:induction false} LastKeyGoes(s: State, id: nat, u: Str)
    returns (acts: seq<Action>)
    requires Doomed(s, id) && Objects(s.dir) != map[] && Fresh(s.dir, u)
    ensures Possible(s, acts) && OnlySteps(acts) && WholeRun(s, Exec(s, acts))
    ensures Exec(s, acts).dir.Some? && !HasObjects(Exec(s, acts).dir)
    decreases |Objects(s.dir).Keys|
  {
    hide Exec, Possible, OnlySteps, ReadyToDelete, WholeRun, Fresh;
    var g :| g in Objects(s.dir);
    assert DeleteReady(s.procs, g);
    var q, key :| q in s.procs && ReadyToDelete(s.procs[q], key, g);
    if Objects(s.dir).Keys == {g} {
      acts := LastOneGoes(s, id, q, key, g, u);
    } else {
      var first, s' := OneGoes(s, id, q, key, g, u);
      FewerObjects(Objects(s.dir), g);
      var rest := LastKeyGoes(s', id, u);
      LeadsOn(s, first, s', rest, Exec(s', rest));
      acts := first + rest;
      StepsJoin(first, rest);
      WholeJoins(s, q, Ended(DeleteKey(key, g), Success(())), s', Exec(s', rest));
    }
  }

  lemma StepsJoin(x: seq<Action>, y: seq<Action>)
    requires OnlySteps(x) && OnlySteps(y)
    ensures OnlySteps(x + y)
  {
  }

  lemma NoneLeft(d: Disk, b: Str)
    requires b in d.buckets && d.buckets[b].objects.None?
    ensures DirOf(d, b).Some? && !HasObjects(DirOf(d, b))
  {
  }

  lemma FewerObjects(objects: map<Str, Str>, g: Str)
    requires g in objects
    ensures |(objects - {g}).Keys| < |objects.Keys|
    ensures objects - {g} == map[] ==> objects.Keys == {g}
  {
    assert (objects - {g}).Keys == objects.Keys - {g};
    if objects - {g} == map[] {
      forall h ensures h in objects.Keys <==> h == g {
        assert h in objects && h != g ==> h in objects - {g};
      }
    }
  }

  lemma OthersReady(procs: map<nat, Proc>, q: nat, key: Str, g: Str, p: Proc, f: Str)
    requires q in procs && ReadyToDelete(procs[q], key, g) && f != g && DeleteReady(procs, f)
    ensures DeleteReady(procs[q := p], f)
  {
    hide EncodeKey;
    var r, k :| r in procs && ReadyToDelete(procs[r], k, f);
    assert ReadyToDelete(procs[q := p][r], k, f);
  }

  lemma StillDoomed(s: State, id: nat, q: nat, key: Str, g: Str)
    requires Doomed(s, id) && q in s.procs && ReadyToDelete(s.procs[q], key, g) && g in Objects(s.dir)
    ensures var dir := SetMeta(SetObjects(s.dir, Objects(s.dir) - {g}), Sidecars(s.dir) - {SidecarName(g)});
      Doomed(State(dir, s.procs[q := Ended(DeleteKey(key, g), Success(()))]), id)
  {
    hide EncodeKey, SidecarName, DeleteReady;
    var dir := SetMeta(SetObjects(s.dir, Objects(s.dir) - {g}), Sidecars(s.dir) - {SidecarName(g)});
    var gone := Ended(DeleteKey(key, g), Success(()));
    StemOfSidecar(g);
    forall f | f in Objects(dir) ensures SidecarName(f) in Sidecars(dir) && DeleteReady(s.procs[q := gone], f) {
      StemOfSidecar(f);
      OthersReady(s.procs, q, key, g, gone, f);
    }
  }

  lemma WholeJoins(s: State, q: nat, p: Proc, s': State, end: State)
    requires q in s.procs && p.Ended? && s'.procs == s.procs[q := p] && WholeRun(s', end)
    ensures WholeRun(s, end)
  {
  }

  lemma DeletesAreReady(s: State, g: Str)
    requires Inv(s) && AllAtFirst(s.procs) && BeingDeleted(s.procs, g)
    ensures DeleteReady(s.procs, g)
  {
    hide Inv, EncodeKey;
    var q :| q in s.procs && Deletes(RequestOf(s.procs[q]), g);
    Named(s, q);
    assert s.procs[q] == First(RequestOf(s.procs[q]));
    assert ReadyToDelete(s.procs[q], RequestOf(s.procs[q]).key, g);
  }

  lemma AllDoomed(d: Disk, b: Str, s: State, id: nat)
    requires WellFormed(d, b, s) && UnsafeDrop(s, id)
    ensures Doomed(s, id)
  {
    hide Inv, IsTempName, ObjectMap.SoundBucket, SidecarName, DirOf, DeleteReady, BeingDeleted, Tidy;
    SoundDir(d, b);
    SoundIsTidy(d.buckets[b]);
    assert s.procs[id] == First(RequestOf(s.procs[id]));
    forall g | g in Objects(s.dir) ensures DeleteReady(s.procs, g) {
      assert BeingDeleted(s.procs, g);
      DeletesAreReady(s, g);
    }
  }

  lemma DoomedGoesWrong(d: Disk, b: Str, s: State, id: nat)
    requires WellFormed(d, b, s) && UnsafeDrop(s, id) && Objects(s.dir) != map[]
    ensures CanGoWrong(d, b, s)
  {
    hide Inv, Exec, Possible, EncodeKey, IsTempName, ObjectMap.SoundBucket, DirOf, OnlySteps, WholeRun, Replays, Tidy;
    AllDoomed(d, b, s, id);
    SoundDir(d, b);
    SoundIsTidy(d.buckets[b]);
    var t, u := TwoTemp(s.dir, d.buckets[b]);
    var acts := LastKeyGoes(s, id, u);
    forall done, d' ensures !Explains(d, b, Exec(s, acts), done, d') {
      if Explains(d, b, Exec(s, acts), done, d') {
        ExplainsNamed(d, b, s, acts, done, d');
        ReplaysTidy(d, b, done, d');
        TidyHasObjects(DirOf(d', b));
      }
    }
    assert GoesWrong(d, b, s, acts);
  }

  lemma TidyHasObjects(dir: Dir)
    requires Tidy(dir)
    ensures dir.Some? ==> HasObjects(dir)
  {
  }

  // ---- Main result ----

  /** Requests none of which has begun, on a well-formed bucket. Some schedule ends with answers and a
      bucket that no order of the answered requests explains, exactly when two requests on one key are
      incompatible, or a bucket deletion is among them and either every object has a delete at work,
      and there is one, or there is no object and a put or a second bucket deletion. */
  lemma GoesWrongExactly(d: Disk, b: Str, s: State)
    requires WellFormed(d, b, s)
    ensures CanGoWrong(d, b, s) <==> !Compatibles(s.procs) || exists id :: UnsafeDrop(s, id)
  {
    hide WellFormed, GoesWrong, Compatibles, UnsafeDrop;
    if !Compatibles(s.procs) {
      IncompatibleGoesWrong(d, b, s);
    } else if id :| UnsafeDrop(s, id) {
      UnsafeGoesWrong(d, b, s, id);
    } else {
      forall acts ensures !GoesWrong(d, b, s, acts) {
        SafeIsExplained(d, b, s, acts);
      }
    }
  }

  lemma UnsafeGoesWrong(d: Disk, b: Str, s: State, id: nat)
    requires WellFormed(d, b, s) && UnsafeDrop(s, id)
    ensures CanGoWrong(d, b, s)
  {
    hide WellFormed, GoesWrong;
    if Objects(s.dir) != map[] {
      DoomedGoesWrong(d, b, s, id);
    } else {
      var q :| Minds(s, id, q);
      EmptyGoesWrong(d, b, s, id, q);
    }
  }
}
