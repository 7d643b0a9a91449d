/** For every fault that a call can raise, an environment in which it does. */
module ReplicaFaults {
  import opened ReplicaModel
  import opened ReplicaSafety
  import opened ReplicaOutcome
  import opened ReplicaRisk

  // ---- events ----

  /** All goes well; a download leaves the local path alone. */
  const Quiet := Event(true, false, Old, "", NoTag)
  /** A write is refused. */
  const Refused := Event(false, false, Old, "", NoTag)

  /** An upload stores these bytes and reports no tag, or their own. */
  function Stores(b: Bytes): Event { Event(true, false, Old, b, NoTag) }
  function StoresTagged(b: Bytes): Event { Event(true, false, Old, b, Md5Tag) }

  /** The process dies and leaves these bytes. */
  function DiesWith(b: Bytes): Event { Event(false, true, New, b, NoTag) }

  /** A write destroys what was there; the process may die with it. */
  function Destroys(dies: bool): Event { Event(false, dies, Gone, "", NoTag) }

  function On(w: World, tape: seq<Event>): World { w.(tape := tape) }

  lemma Next(w: World, e: Event, rest: seq<Event>)
    ensures Peek(On(w, [e] + rest)) == e && Pop(On(w, [e] + rest)) == On(w, rest)
  {
  }

  // ---- uploads ----

  function StoredAt(w: World, slot: Slot, b: Bytes): World {
    w.(objects := w.objects[slot := Obj(b, NoTag)])
  }

  /** Storing without a tag: the object is read again. */
  lemma PutThenVerify(cfg: Config, w: World, slot: Slot, sum: Checksum, b: Bytes, rest: seq<Event>)
    ensures var r, v := Try(cfg, On(w, [Quiet] + ([Stores(b)] + rest)), slot, sum),
                        ChecksumFromStorage(cfg, On(StoredAt(w, slot, b), rest), slot, sum, Nowhere);
      r == match v.v
           case Died => Stop(v.w, Killed)
           case ReadError => Stop(v.w, GaveUp)
           case Healthy => Stop(v.w, Stored)
           case Unhealthy => Again(v.w, false)
  {
    Next(w, Quiet, [Stores(b)] + rest);
    Next(w, Stores(b), rest);
  }

  /** Reading an untagged object that is there. */
  lemma ReadBack(cfg: Config, w: World, slot: Slot, sum: Checksum, rest: seq<Event>)
    requires slot in w.objects && !TagMatches(cfg, w.objects[slot], sum)
    ensures ChecksumFromStorage(cfg, On(w, [Quiet] + ([Quiet] + rest)), slot, sum, Nowhere)
            == if Intact(cfg, w.objects[slot].bytes, sum) then RePut(cfg, On(w, rest), slot, sum) else Verified(On(w, rest), Unhealthy)
  {
    Next(w, Quiet, [Quiet] + rest);
    Next(w, Quiet, rest);
  }

  function JunkRound(b: Bytes, rest: seq<Event>): seq<Event> {
    [Quiet] + ([Stores(b)] + ([Quiet] + ([Quiet] + rest)))
  }

  lemma JunkTry(cfg: Config, w: World, slot: Slot, sum: Checksum, b: Bytes, rest: seq<Event>)
    requires !Intact(cfg, b, sum)
    ensures Try(cfg, On(w, JunkRound(b, rest)), slot, sum) == Again(On(StoredAt(w, slot, b), rest), false)
  {
    PutThenVerify(cfg, w, slot, sum, b, [Quiet] + ([Quiet] + rest));
    ReadBack(cfg, StoredAt(w, slot, b), slot, sum, rest);
  }

  lemma UploadUnfolds(cfg: Config, w: World, slot: Slot, sum: Checksum, tries: nat, err: bool)
    requires tries > 0
    ensures Upload(cfg, w, slot, sum, tries, err) == match Try(cfg, w, slot, sum)
                                                    case Stop(w1, end) => Uploaded(w1, end)
                                                    case Again(w1, err1) => Upload(cfg, w1, slot, sum, tries - 1, err1)
  {
  }

  function JunkRounds(b: Bytes, tries: nat, rest: seq<Event>): seq<Event> {
    if tries == 0 then rest else JunkRound(b, JunkRounds(b, tries - 1, rest))
  }

  lemma JunkStep(cfg: Config, w: World, slot: Slot, sum: Checksum, b: Bytes, tries: nat, rest: seq<Event>)
    requires !Intact(cfg, b, sum) && tries > 0
    ensures Upload(cfg, On(w, JunkRounds(b, tries, rest)), slot, sum, tries, false)
            == Upload(cfg, On(StoredAt(w, slot, b), JunkRounds(b, tries - 1, rest)), slot, sum, tries - 1, false)
  {
    JunkTry(cfg, w, slot, sum, b, JunkRounds(b, tries - 1, rest));
    UploadUnfolds(cfg, On(w, JunkRounds(b, tries, rest)), slot, sum, tries, false);
  }

  lemma UploadOver(cfg: Config, w: World, slot: Slot, sum: Checksum, b: Bytes, rest: seq<Event>)
    ensures Upload(cfg, On(w, JunkRounds(b, 0, rest)), slot, sum, 0, false) == Uploaded(On(w, rest), Unverified)
  {
  }

  lemma JunkAgain(w: World, slot: Slot, b: Bytes)
    ensures StoredAt(StoredAt(w, slot, b), slot, b) == StoredAt(w, slot, b)
  {
  }

  lemma JunkUpload(cfg: Config, w: World, slot: Slot, sum: Checksum, b: Bytes, rest: seq<Event>)
    requires !Intact(cfg, b, sum)
    ensures Upload(cfg, On(w, JunkRounds(b, 3, rest)), slot, sum, 3, false) == Uploaded(On(StoredAt(w, slot, b), rest), Unverified)
  {
    var w1, three := StoredAt(w, slot, b), 3;
    JunkAgain(w, slot, b);
    JunkStep(cfg, w, slot, sum, b, three, rest);
    JunkStep(cfg, w1, slot, sum, b, three - 1, rest);
    JunkStep(cfg, w1, slot, sum, b, three - 2, rest);
    UploadOver(cfg, w1, slot, sum, b, rest);
  }

  function BlindTape(b: Bytes): seq<Event> { [Quiet] + ([Quiet] + JunkRounds(b, 3, [Quiet] + [])) }

  function Indexed(w: World, m: Meta): World { w.(index := w.index[m.id := m]) }

  /** A replication whose first index write goes well goes on to send. */
  lemma ReplicateSends(cfg: Config, w: World, m: Meta, backend: string, prefix: string, rest: seq<Event>)
    requires ValidMeta(m) && ValidBase(m.path.base)
    ensures var m1 := Marked(m, backend, prefix);
      Replicate(cfg, On(w, [Quiet] + rest), m, backend, prefix) == Send(cfg, On(Indexed(w, m1), rest), m1, backend, prefix)
  {
    Next(w, Quiet, rest);
  }

  lemma IndexedTwice(w: World, m1: Meta, m2: Meta)
    requires m1.id == m2.id
    ensures Indexed(w, m1).index[m2.id := m2] == w.index[m2.id := m2]
  {
  }

  /** Three mismatching uploads: the fault is raised and the junk is recorded as a healthy replica. */
  lemma BlindReplicates(cfg: Config, w: World, m: Meta, backend: string, prefix: string, b: Bytes)
    requires Replicable(w, m) && !Intact(cfg, b, m.checksum)
    ensures var r, slot := Replicate(cfg, On(w, BlindTape(b)), m, backend, prefix), Slot(backend, Name(prefix, m.path.base));
      && r.meta == Confirmed(Marked(m, backend, prefix), backend, prefix) && r.s.Done?
      && r.w == On(StoredAt(w, slot, b).(index := w.index[m.id := r.meta], faults := w.faults + {Blind}), [])
  {
    var m1 := Marked(m, backend, prefix);
    ReplicateSends(cfg, w, m, backend, prefix, [Quiet] + JunkRounds(b, 3, [Quiet] + []));
    BlindSends(cfg, Indexed(w, m1), m1, backend, prefix, b);
    IndexedTwice(w, m1, Confirmed(m1, backend, prefix));
  }

  lemma BlindSends(cfg: Config, w: World, m1: Meta, backend: string, prefix: string, b: Bytes)
    requires m1.path in w.files && !Intact(cfg, b, m1.checksum)
    requires exists i :: 0 <= i < |m1.locators| && m1.locators[i].backend == backend
    ensures var r, slot := Send(cfg, On(w, [Quiet] + JunkRounds(b, 3, [Quiet] + [])), m1, backend, prefix),
                           Slot(backend, Name(prefix, m1.path.base));
      && r.meta == Confirmed(m1, backend, prefix) && r.s.Done?
      && r.w == On(StoredAt(w, slot, b).(index := w.index[m1.id := r.meta], faults := w.faults + {Blind}), [])
  {
    var slot := Slot(backend, Name(prefix, m1.path.base));
    Next(w, Quiet, JunkRounds(b, 3, [Quiet] + []));
    JunkUpload(cfg, w, slot, m1.checksum, b, [Quiet] + []);
    Next(Flag(StoredAt(w, slot, b), Blind, true), Quiet, []);
  }

  /** A record that calls junk healthy is not truthful. */
  lemma JunkUnsafe(cfg: Config, w: World, m1: Meta, backend: string, prefix: string, b: Bytes)
    requires exists i :: 0 <= i < |m1.locators| && m1.locators[i].backend == backend
    requires m1.id in w.index && w.index[m1.id] == Confirmed(m1, backend, prefix) && !Intact(cfg, b, m1.checksum)
    requires var slot := Slot(backend, Name(prefix, m1.path.base)); slot in w.objects && w.objects[slot] == Obj(b, NoTag)
    ensures !Safe(cfg, w)
  {
    var m, i := w.index[m1.id], LastOf(m1.locators, backend);
    assert m.locators[i] == Locator(backend, Name(prefix, m1.path.base), true);
    assert SlotOf(m.locators[i]) == Slot(backend, Name(prefix, m1.path.base));
    assert !Truthful(cfg, w, m);
    assert !SafeFor(cfg, w, m1.id);
  }

  // ---- a rewrite that destroys ----

  lemma RePutDestroys(cfg: Config, w: World, slot: Slot, sum: Checksum, dies: bool, rest: seq<Event>)
    requires slot.backend in cfg.canRePut
    ensures RePut(cfg, On(w, [Destroys(dies)] + rest), slot, sum)
            == Verified(On(w.(objects := w.objects - {slot}, faults := w.faults + {TornRePut}), rest), if dies then Died else Healthy)
  {
    Next(w, Destroys(dies), rest);
  }

  function TornRound(b: Bytes, dies: bool, rest: seq<Event>): seq<Event> {
    [Quiet] + ([Stores(b)] + ([Quiet] + ([Quiet] + ([Destroys(dies)] + rest))))
  }

  function Torn(w: World, slot: Slot): World {
    w.(objects := w.objects - {slot}, faults := w.faults + {TornRePut})
  }

  lemma TornUpload(cfg: Config, w: World, slot: Slot, sum: Checksum, b: Bytes, dies: bool, rest: seq<Event>)
    requires Intact(cfg, b, sum) && slot.backend in cfg.canRePut
    ensures Upload(cfg, On(w, TornRound(b, dies, rest)), slot, sum, 3, false)
            == Uploaded(On(Torn(w, slot), rest), if dies then Killed else Stored)
  {
    var t3 := [Quiet] + ([Quiet] + ([Destroys(dies)] + rest));
    PutThenVerify(cfg, w, slot, sum, b, t3);
    ReadBack(cfg, StoredAt(w, slot, b), slot, sum, [Destroys(dies)] + rest);
    RePutDestroys(cfg, StoredAt(w, slot, b), slot, sum, dies, rest);
    StoredGone(w, slot, b);
    UploadUnfolds(cfg, On(w, TornRound(b, dies, rest)), slot, sum, 3, false);
  }

  lemma StoredGone(w: World, slot: Slot, b: Bytes)
    ensures StoredAt(w, slot, b).objects - {slot} == w.objects - {slot}
  {
  }

  /** The rewrite kills the process. */
  function TornTape(b: Bytes): seq<Event> { [Quiet] + ([Quiet] + TornRound(b, true, [])) }

  lemma TornReplicates(cfg: Config, w: World, m: Meta, backend: string, prefix: string, b: Bytes)
    requires Replicable(w, m) && Intact(cfg, b, m.checksum) && backend in cfg.canRePut
    ensures var r := Replicate(cfg, On(w, TornTape(b)), m, backend, prefix); TornRePut in r.w.faults && r.w.tape == []
  {
    var w1 := Indexed(w, Marked(m, backend, prefix));
    ReplicateSends(cfg, w, m, backend, prefix, [Quiet] + TornRound(b, true, []));
    Next(w1, Quiet, TornRound(b, true, []));
    TornUpload(cfg, w1, Slot(backend, Name(prefix, m.path.base)), m.checksum, b, true, []);
  }

  /** The rewrite goes wrong unnoticed, and the replica is recorded as healthy. */
  function MisleadingTape(b: Bytes): seq<Event> { [Quiet] + ([Quiet] + TornRound(b, false, [Quiet] + [])) }

  lemma TornMisleads(cfg: Config, w: World, m: Meta, backend: string, prefix: string, b: Bytes)
    requires Replicable(w, m) && Intact(cfg, b, m.checksum) && backend in cfg.canRePut
    ensures var r, slot := Replicate(cfg, On(w, MisleadingTape(b)), m, backend, prefix), Slot(backend, Name(prefix, m.path.base));
      && r.meta == Confirmed(Marked(m, backend, prefix), backend, prefix) && r.s.Done?
      && r.w == On(Torn(w, slot).(index := w.index[m.id := r.meta]), [])
  {
    var m1 := Marked(m, backend, prefix);
    ReplicateSends(cfg, w, m, backend, prefix, [Quiet] + TornRound(b, false, [Quiet] + []));
    MisleadingSends(cfg, Indexed(w, m1), m1, backend, prefix, b);
    IndexedTwice(w, m1, Confirmed(m1, backend, prefix));
  }

  lemma MisleadingSends(cfg: Config, w: World, m1: Meta, backend: string, prefix: string, b: Bytes)
    requires m1.path in w.files && Intact(cfg, b, m1.checksum) && backend in cfg.canRePut
    requires exists i :: 0 <= i < |m1.locators| && m1.locators[i].backend == backend
    ensures var r := Send(cfg, On(w, [Quiet] + TornRound(b, false, [Quiet] + [])), m1, backend, prefix);
      && r.meta == Confirmed(m1, backend, prefix) && r.s.Done?
      && r.w == On(Torn(w, Slot(backend, Name(prefix, m1.path.base))).(index := w.index[m1.id := r.meta]), [])
  {
    var slot := Slot(backend, Name(prefix, m1.path.base));
    Next(w, Quiet, TornRound(b, false, [Quiet] + []));
    TornUpload(cfg, w, slot, m1.checksum, b, false, [Quiet] + []);
    Next(Torn(w, slot), Quiet, []);
  }

  // ---- a replication that succeeds ----

  function GoodTape(b: Bytes, rest: seq<Event>): seq<Event> {
    [Quiet] + ([Quiet] + ([Quiet] + ([StoresTagged(b)] + ([Quiet] + rest))))
  }

  lemma GoodReplicates(cfg: Config, w: World, m: Meta, backend: string, prefix: string, b: Bytes, rest: seq<Event>)
    requires Replicable(w, m) && Intact(cfg, b, m.checksum) && m.checksum.algorithm.Md5?
    ensures var r := Replicate(cfg, On(w, GoodTape(b, rest)), m, backend, prefix);
      && r.s.Done? && r.w.tape == rest && r.w.files == w.files && r.w.faults == w.faults
      && r.meta.(locators := []) == m.(locators := [])
  {
    var m1, slot := Marked(m, backend, prefix), Slot(backend, Name(prefix, m.path.base));
    var w1 := Indexed(w, m1);
    var t2 := [Quiet] + ([StoresTagged(b)] + ([Quiet] + rest));
    ReplicateSends(cfg, w, m, backend, prefix, [Quiet] + t2);
    Next(w1, Quiet, t2);
    TaggedUpload(cfg, w1, slot, m.checksum, b, [Quiet] + rest);
    Next(w1.(objects := w1.objects[slot := Obj(b, Md5Tag)]), Quiet, rest);
  }

  lemma TaggedUpload(cfg: Config, w: World, slot: Slot, sum: Checksum, b: Bytes, rest: seq<Event>)
    requires Intact(cfg, b, sum) && sum.algorithm.Md5?
    ensures Upload(cfg, On(w, [Quiet] + ([StoresTagged(b)] + rest)), slot, sum, 3, false)
            == Uploaded(On(w.(objects := w.objects[slot := Obj(b, Md5Tag)]), rest), Stored)
  {
    Next(w, Quiet, [StoresTagged(b)] + rest);
    Next(w, StoresTagged(b), rest);
    UploadUnfolds(cfg, On(w, [Quiet] + ([StoresTagged(b)] + rest)), slot, sum, 3, false);
  }

  // ---- a check that passes over locators without changing anything but the record in memory ----

  lemma VerifyPass(cfg: Config, w: World, slot: Slot, sum: Checksum, save: SavePath, rest: seq<Event>) returns (t: seq<Event>)
    requires save.At? ==> save.path !in w.files
    ensures ChecksumFromStorage(cfg, On(w, t + rest), slot, sum, save)
            == Verified(On(w, rest), if ObjectIntact(cfg, w, slot, sum) then Healthy else Unhealthy)
  {
    if slot !in w.objects || (TagMatches(cfg, w.objects[slot], sum) && save.Nowhere?) {
      t := [Quiet];
      Next(w, Quiet, rest);
    } else {
      var more := if ObjectIntact(cfg, w, slot, sum) && slot.backend in cfg.canRePut then [Refused] else [];
      t := [Quiet] + ([Quiet] + more);
      assert t + rest == [Quiet] + ([Quiet] + (more + rest));
      Next(w, Quiet, [Quiet] + (more + rest));
      DownloadPass(cfg, w, w.objects[slot].bytes, save, sum, more + rest);
      if more == [] { assert more + rest == rest; } else { Next(w, Refused, rest); }
    }
  }

  lemma DownloadPass(cfg: Config, w: World, bytes: Bytes, save: SavePath, sum: Checksum, rest: seq<Event>)
    requires save.At? ==> save.path !in w.files
    ensures Download(cfg, On(w, [Quiet] + rest), bytes, save, sum) == Out(On(w, rest), Done)
  {
    Next(w, Quiet, rest);
  }

  /** The record after a locator was looked at and repaired only in memory, because the index refused the repair. */
  function Passed(cfg: Config, w: World, m: Meta, i: nat, force: bool): Meta
    requires i < |m.locators|
  {
    var l := m.locators[i];
    var intact := ObjectIntact(cfg, w, SlotOf(l), m.checksum);
    if !Considered(cfg, m, i, force) then m
    else if m.healthy && !intact && ValidMeta(m) && ValidBase(m.path.base)
    then SetHealth(Marked(m, l.backend, l.key.dir), i, intact)
    else SetHealth(m, i, intact)
  }

  lemma RefusedReplicate(cfg: Config, w: World, m: Meta, backend: string, prefix: string, rest: seq<Event>)
    ensures if ValidMeta(m) && ValidBase(m.path.base)
            then Replicate(cfg, On(w, [Refused] + rest), m, backend, prefix)
                 == Replication(On(w, rest), Marked(m, backend, prefix), Failed)
            else Replicate(cfg, On(w, rest), m, backend, prefix) == Replication(On(w, rest), m, Failed)
  {
    Next(w, Refused, rest);
  }

  lemma RepairPass(cfg: Config, w: World, m: Meta, i: nat, force: bool, rest: seq<Event>) returns (t: seq<Event>)
    requires i < |m.locators| && m.healthy && Considered(cfg, m, i, force)
    requires !ObjectIntact(cfg, w, SlotOf(m.locators[i]), m.checksum)
    ensures Repair(cfg, On(w, t + rest), m, i) == Checking(On(w, rest), Passed(cfg, w, m, i, force), Done)
  {
    var l := m.locators[i];
    var v := VerifyPass(cfg, w, SlotOf(l), m.checksum, Nowhere, rest);
    RefusedReplicate(cfg, w, m, l.backend, l.key.dir, v + rest);
    if ValidMeta(m) && ValidBase(m.path.base) {
      t := [Refused] + v;
      assert t + rest == [Refused] + (v + rest);
    } else {
      t := v;
    }
  }

  lemma LocatorPass(cfg: Config, w: World, m: Meta, i: nat, force: bool, rest: seq<Event>) returns (t: seq<Event>)
    requires i < |m.locators| && KeysFollowPath(m) && DistinctBackends(m) && (m.healthy || m.path !in w.files)
    ensures CheckOne(cfg, On(w, t + rest), m, i, force) == Checking(On(w, rest), Passed(cfg, w, m, i, force), Done)
    ensures var m1 := Passed(cfg, w, m, i, force); StepAt(w, w, m, m1, i) && m1.id == m.id && m1.healthy == m.healthy
  {
    if !Considered(cfg, m, i, force) {
      t := [];
      assert t + rest == rest;
    } else {
      t := ConsideredPass(cfg, w, m, i, force, rest);
    }
    LocatorFrame(cfg, On(w, t + rest), m, i, force);
  }

  lemma ConsideredPass(cfg: Config, w: World, m: Meta, i: nat, force: bool, rest: seq<Event>) returns (t: seq<Event>)
    requires Considered(cfg, m, i, force) && (m.healthy || m.path !in w.files)
    ensures CheckOne(cfg, On(w, t + rest), m, i, force) == Checking(On(w, rest), Passed(cfg, w, m, i, force), Done)
  {
    if m.healthy && !ObjectIntact(cfg, w, SlotOf(m.locators[i]), m.checksum) {
      t := RepairedPass(cfg, w, m, i, force, rest);
    } else {
      t := VerifyPass(cfg, w, SlotOf(m.locators[i]), m.checksum, SaveFor(m), rest);
    }
  }

  lemma RepairedPass(cfg: Config, w: World, m: Meta, i: nat, force: bool, rest: seq<Event>) returns (t: seq<Event>)
    requires Considered(cfg, m, i, force) && m.healthy && !ObjectIntact(cfg, w, SlotOf(m.locators[i]), m.checksum)
    ensures CheckOne(cfg, On(w, t + rest), m, i, force) == Checking(On(w, rest), Passed(cfg, w, m, i, force), Done)
  {
    var r := RepairPass(cfg, w, m, i, force, rest);
    var v := VerifyPass(cfg, w, SlotOf(m.locators[i]), m.checksum, Nowhere, r + rest);
    t := v + r;
    assert t + rest == v + (r + rest);
  }

  /** The record in memory when the loop reaches locator k. */
  ghost predicate Reached(m: Meta, m1: Meta, i: nat, k: nat) {
    && m1.path == m.path && m1.checksum == m.checksum && m1.id == m.id && m1.healthy == m.healthy
    && |m1.locators| == |m.locators|
    && (forall j :: 0 <= j < |m.locators| ==> SlotOf(m1.locators[j]) == SlotOf(m.locators[j]))
    && (forall j :: 0 <= j < |m.locators| && (j < i || j >= k) ==> m1.locators[j] == m.locators[j])
  }

  lemma ReachedOne(w: World, m: Meta, m1: Meta, m2: Meta, i: nat, k: nat)
    requires i < k <= |m.locators| && StepAt(w, w, m, m1, i) && m1.id == m.id && m1.healthy == m.healthy
    requires Reached(m1, m2, i + 1, k)
    ensures Reached(m, m2, i, k)
  {
  }

  lemma CheckFromOne(cfg: Config, w: World, m: Meta, i: nat, n: nat, force: bool, w1: World, m1: Meta)
    requires i < n && i < |m.locators| && CheckOne(cfg, w, m, i, force) == Checking(w1, m1, Done)
    ensures CheckFrom(cfg, w, m, i, n, force) == CheckFrom(cfg, w1, m1, i + 1, n, force)
  {
  }

  lemma PassOne(cfg: Config, w: World, m: Meta, i: nat, n: nat, force: bool, rest: seq<Event>) returns (t: seq<Event>)
    requires i < n == |m.locators| && KeysFollowPath(m) && DistinctBackends(m) && (m.healthy || m.path !in w.files)
    ensures CheckFrom(cfg, On(w, t + rest), m, i, n, force)
            == CheckFrom(cfg, On(w, rest), Passed(cfg, w, m, i, force), i + 1, n, force)
  {
    t := LocatorPass(cfg, w, m, i, force, rest);
    CheckFromOne(cfg, On(w, t + rest), m, i, n, force, On(w, rest), Passed(cfg, w, m, i, force));
  }

  /** The record when the loop has passed over the locators from i up to k. */
  function PassedTo(cfg: Config, w: World, m: Meta, i: nat, k: nat, force: bool): Meta
    requires i <= k <= |m.locators|
    decreases k - i
  {
    if i == k then m
    else
      var p := Passed(cfg, w, m, i, force);
      if |p.locators| == |m.locators| then PassedTo(cfg, w, p, i + 1, k, force) else m
  }

  lemma {:induction false} Reach(cfg: Config, w: World, m: Meta, i: nat, k: nat, n: nat, force: bool, rest: seq<Event>)
    returns (t: seq<Event>)
    requires i <= k <= n == |m.locators| && KeysFollowPath(m) && DistinctBackends(m) && (m.healthy || m.path !in w.files)
    ensures CheckFrom(cfg, On(w, t + rest), m, i, n, force)
            == CheckFrom(cfg, On(w, rest), PassedTo(cfg, w, m, i, k, force), k, n, force)
    ensures Reached(m, PassedTo(cfg, w, m, i, k, force), i, k)
    decreases k - i
  {
    if i == k {
      t := [];
      assert t + rest == rest;
    } else {
      var p := Passed(cfg, w, m, i, force);
      var _ := LocatorPass(cfg, w, m, i, force, []);
      StepShape(w, m, p, i);
      var t2 := Reach(cfg, w, p, i + 1, k, n, force, rest);
      var t1 := PassOne(cfg, w, m, i, n, force, t2 + rest);
      t := t1 + t2;
      assert t + rest == t1 + (t2 + rest);
      ReachedOne(w, m, p, PassedTo(cfg, w, p, i + 1, k, force), i, k);
    }
  }

  lemma StepShape(w: World, m: Meta, m1: Meta, i: nat)
    requires i < |m.locators| && StepAt(w, w, m, m1, i) && KeysFollowPath(m) && DistinctBackends(m)
    ensures KeysFollowPath(m1) && DistinctBackends(m1)
  {
    forall k | 0 <= k < |m.locators| ensures m1.locators[k].backend == m.locators[k].backend && m1.locators[k].key == m.locators[k].key {
      assert SlotOf(m1.locators[k]) == SlotOf(m.locators[k]);
    }
  }

  // ---- an upload that raises a given fault ----

  function UploadTape(f: Fault, junk: Bytes, good: Bytes): seq<Event> {
    if f == Blind then BlindTape(junk) else TornTape(good)
  }

  lemma UploadHit(cfg: Config, w: World, m: Meta, backend: string, prefix: string, f: Fault, junk: Bytes, good: Bytes)
    requires Replicable(w, m) && f in UploadRisk(cfg, backend)
    requires !Intact(cfg, junk, m.checksum) && Intact(cfg, good, m.checksum)
    ensures var r := Replicate(cfg, On(w, UploadTape(f, junk, good)), m, backend, prefix);
            f in r.w.faults && r.w.tape == [] && (f == Blind ==> !Safe(cfg, r.w))
  {
    if f == Blind {
      BlindReplicates(cfg, w, m, backend, prefix, junk);
      JunkUnsafe(cfg, Replicate(cfg, On(w, BlindTape(junk)), m, backend, prefix).w, Marked(m, backend, prefix), backend, prefix, junk);
    } else {
      TornReplicates(cfg, w, m, backend, prefix, good);
    }
  }
}
