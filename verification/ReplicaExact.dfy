/** Exactly which calls can raise a fault, and exactly which can break the safety of the copies. */
module ReplicaExact {
  import opened ReplicaModel
  import opened ReplicaSafety
  import opened ReplicaOutcome
  import opened ReplicaRisk
  import opened ReplicaFaults

  /** No checksum is the checksum of everything. */
  ghost predicate Discerns(cfg: Config) {
    forall sum :: Missed(cfg, sum)
  }

  ghost predicate Missed(cfg: Config, sum: Checksum) {
    exists b :: !Intact(cfg, b, sum)
  }

  lemma Junk(cfg: Config, sum: Checksum) returns (b: Bytes)
    requires Discerns(cfg)
    ensures !Intact(cfg, b, sum)
  {
    assert Missed(cfg, sum);
    b :| !Intact(cfg, b, sum);
  }

  // ---- at one locator of a check ----

  /** Without an intact file the download of an object dies and leaves junk at the archive path. */
  lemma DirtyHit(cfg: Config, w: World, m: Meta, i: nat, force: bool, b: Bytes)
    requires Considered(cfg, m, i, force) && !m.healthy && SlotOf(m.locators[i]) in w.objects && !Intact(cfg, b, m.checksum)
    ensures CheckOne(cfg, On(w, [Quiet] + ([DiesWith(b)] + [])), m, i, force)
            == Checking(On(w.(files := w.files[m.path := b], faults := w.faults + {DirtyDownload}), []), m, Crashed)
  {
    Next(w, Quiet, [DiesWith(b)] + []);
    Next(w, DiesWith(b), []);
  }

  /** An intact object that is read again is destroyed by the rewrite. */
  lemma TornHit(cfg: Config, w: World, m: Meta, i: nat, force: bool, dies: bool, rest: seq<Event>)
    requires Considered(cfg, m, i, force) && m.locators[i].backend in cfg.canRePut
    requires ObjectIntact(cfg, w, SlotOf(m.locators[i]), m.checksum)
    requires if m.healthy then !TagMatches(cfg, w.objects[SlotOf(m.locators[i])], m.checksum) else m.path !in w.files
    ensures CheckOne(cfg, On(w, [Quiet] + ([Quiet] + ([Destroys(dies)] + rest))), m, i, force)
            == Checking(On(w.(objects := w.objects - {SlotOf(m.locators[i])}, faults := w.faults + {TornRePut}), rest),
                        if dies then m else SetHealth(m, i, true), if dies then Crashed else Done)
  {
    var slot := SlotOf(m.locators[i]);
    Next(w, Quiet, [Quiet] + ([Destroys(dies)] + rest));
    DownloadPass(cfg, w, w.objects[slot].bytes, SaveFor(m), m.checksum, [Destroys(dies)] + rest);
    RePutDestroys(cfg, w, slot, m.checksum, dies, rest);
  }

  /** Beside an intact file any other object is repaired, and the repair dies in the given way. */
  lemma RepairHit(cfg: Config, w: World, m: Meta, i: nat, force: bool, tape: seq<Event>) returns (t: seq<Event>)
    requires Considered(cfg, m, i, force) && m.healthy && !ObjectIntact(cfg, w, SlotOf(m.locators[i]), m.checksum)
    requires Replicate(cfg, On(w, tape), m, m.locators[i].backend, m.locators[i].key.dir).w.tape == []
    ensures var rep, r := Replicate(cfg, On(w, tape), m, m.locators[i].backend, m.locators[i].key.dir),
                          CheckOne(cfg, On(w, t), m, i, force);
            r.w == rep.w && r.s.Crashed?
  {
    t := VerifyPass(cfg, w, SlotOf(m.locators[i]), m.checksum, Nowhere, tape);
    t := t + tape;
  }

  // ---- in a whole check ----

  lemma CheckStarts(cfg: Config, w: World, id: int, force: bool, t: seq<Event>)
    requires id in w.index && ValidMeta(w.index[id])
    ensures var m := Seen(cfg, w, id);
            var r := CheckFrom(cfg, On(w, t), m, 0, |m.locators|, force);
            Check(cfg, On(w, [Quiet] + ([Quiet] + t)), id, force) == if r.s.Done? then IndexPut(r.w, r.meta) else Out(r.w, r.s)
  {
    Next(w, Quiet, [Quiet] + t);
    Next(w, Quiet, t);
  }

  lemma CheckFromStops(cfg: Config, w: World, m: Meta, i: nat, n: nat, force: bool)
    requires i < n && i < |m.locators| && CheckOne(cfg, w, m, i, force).s.Crashed?
    ensures CheckFrom(cfg, w, m, i, n, force) == CheckOne(cfg, w, m, i, force)
  {
  }

  /** The record that a check has in memory when it reaches locator i and no environment interferes. */
  function AtLocator(cfg: Config, w: World, id: int, force: bool, i: nat): Meta
    requires id in w.index && i <= |w.index[id].locators|
  {
    PassedTo(cfg, w, Seen(cfg, w, id), 0, i, force)
  }

  lemma Approach(cfg: Config, w: World, id: int, force: bool, i: nat, rest: seq<Event>) returns (t: seq<Event>)
    requires SafeFor(cfg, w, id) && id in w.index && ValidMeta(w.index[id]) && i <= |w.index[id].locators|
    ensures var m, m1 := Seen(cfg, w, id), AtLocator(cfg, w, id, force, i);
            Reached(m, m1, 0, i) && KeysFollowPath(m1) && DistinctBackends(m1)
    ensures var m, m1 := Seen(cfg, w, id), AtLocator(cfg, w, id, force, i);
            var r := CheckFrom(cfg, On(w, rest), m1, i, |m.locators|, force);
            Check(cfg, On(w, t), id, force) == if r.s.Done? then IndexPut(r.w, r.meta) else Out(r.w, r.s)
  {
    var m := Seen(cfg, w, id);
    var t0 := Reach(cfg, w, m, 0, i, |m.locators|, force, rest);
    t := [Quiet] + ([Quiet] + (t0 + rest));
    CheckStarts(cfg, w, id, force, t0 + rest);
    ReachedShape(m, AtLocator(cfg, w, id, force, i), 0, i);
  }

  lemma ReachedShape(m: Meta, m1: Meta, i: nat, k: nat)
    requires Reached(m, m1, i, k) && KeysFollowPath(m) && DistinctBackends(m)
    ensures KeysFollowPath(m1) && DistinctBackends(m1)
  {
    forall j | 0 <= j < |m.locators| ensures m1.locators[j].backend == m.locators[j].backend && m1.locators[j].key == m.locators[j].key {
      assert SlotOf(m1.locators[j]) == SlotOf(m.locators[j]);
    }
  }

  /** A crash at locator i ends the check. */
  lemma CrashAt(cfg: Config, w: World, id: int, force: bool, i: nat, hit: seq<Event>) returns (t: seq<Event>)
    requires SafeFor(cfg, w, id) && id in w.index && ValidMeta(w.index[id]) && i < |w.index[id].locators|
    requires Reached(Seen(cfg, w, id), AtLocator(cfg, w, id, force, i), 0, i)
    requires CheckOne(cfg, On(w, hit), AtLocator(cfg, w, id, force, i), i, force).s.Crashed?
    ensures Check(cfg, On(w, t), id, force).w == CheckOne(cfg, On(w, hit), AtLocator(cfg, w, id, force, i), i, force).w
  {
    t := Approach(cfg, w, id, force, i, hit);
    CheckFromStops(cfg, On(w, hit), AtLocator(cfg, w, id, force, i), i, |w.index[id].locators|, force);
  }

  /** Some bytes have the recorded checksum of an id that still has a copy. */
  lemma Preimage(cfg: Config, w: World, id: int) returns (b: Bytes)
    requires SafeFor(cfg, w, id) && id in w.index
    ensures Intact(cfg, b, w.index[id].checksum)
  {
    if FileIntact(cfg, w, w.packed[id].path, w.packed[id].checksum) {
      b := w.files[w.packed[id].path];
    } else {
      var slot :| slot in w.objects && cfg.owner(slot.key.base) == id && ObjectIntact(cfg, w, slot, w.packed[id].checksum);
      b := w.objects[slot].bytes;
    }
  }

  /** Without an intact file, a download can leave junk at the archive path. */
  lemma CheckCanSpill(cfg: Config, w: World, id: int, force: bool, i: nat, junk: Bytes) returns (t: seq<Event>)
    requires SafeFor(cfg, w, id) && id in w.index && ValidMeta(w.index[id]) && !Intact(cfg, junk, w.index[id].checksum)
    requires Considered(cfg, w.index[id], i, force) && DirtyDownload in LocatorRisk(cfg, w, Seen(cfg, w, id), i)
    ensures DirtyDownload in Check(cfg, On(w, t), id, force).w.faults && !Safe(cfg, Check(cfg, On(w, t), id, force).w)
  {
    var _ := Approach(cfg, w, id, force, i, []);
    var m1 := AtLocator(cfg, w, id, force, i);
    DirtyHit(cfg, w, m1, i, force, junk);
    t := CrashAt(cfg, w, id, force, i, [Quiet] + ([DiesWith(junk)] + []));
    var w1 := Check(cfg, On(w, t), id, force).w;
    assert w1.packed == w.packed && w1.files == w.files[m1.path := junk];
    assert !LocalClean(cfg, w1, id);
    assert !SafeFor(cfg, w1, id);
  }

  /** Where no intact object stands beside the intact file, the repair's upload can raise its faults. */
  lemma CheckCanUpload(cfg: Config, w: World, id: int, force: bool, i: nat, f: Fault, junk: Bytes) returns (t: seq<Event>)
    requires SafeFor(cfg, w, id) && id in w.index && ValidMeta(w.index[id]) && !Intact(cfg, junk, w.index[id].checksum)
    requires Considered(cfg, w.index[id], i, force) && Seen(cfg, w, id).healthy && Replicable(w, w.index[id])
    requires !ObjectIntact(cfg, w, SlotOf(w.index[id].locators[i]), w.index[id].checksum)
    requires f in UploadRisk(cfg, w.index[id].locators[i].backend)
    ensures var w1 := Check(cfg, On(w, t), id, force).w; f in w1.faults && (f == Blind ==> !Safe(cfg, w1))
  {
    var l := w.index[id].locators[i];
    var good := Preimage(cfg, w, id);
    var _ := Approach(cfg, w, id, force, i, []);
    var m1 := AtLocator(cfg, w, id, force, i);
    UploadHit(cfg, w, m1, l.backend, l.key.dir, f, junk, good);
    var hit := RepairHit(cfg, w, m1, i, force, UploadTape(f, junk, good));
    t := CrashAt(cfg, w, id, force, i, hit);
  }

  /** An intact object that is put again can be destroyed. */
  lemma CheckCanTear(cfg: Config, w: World, id: int, force: bool, i: nat) returns (t: seq<Event>)
    requires SafeFor(cfg, w, id) && id in w.index && ValidMeta(w.index[id])
    requires Considered(cfg, w.index[id], i, force) && TornRePut in LocatorRisk(cfg, w, Seen(cfg, w, id), i)
    requires ObjectIntact(cfg, w, SlotOf(w.index[id].locators[i]), w.index[id].checksum)
    ensures TornRePut in Check(cfg, On(w, t), id, force).w.faults
  {
    var _ := Approach(cfg, w, id, force, i, []);
    TornHit(cfg, w, AtLocator(cfg, w, id, force, i), i, force, true, []);
    t := CrashAt(cfg, w, id, force, i, [Quiet] + ([Quiet] + ([Destroys(true)] + [])));
  }

  /** Every fault in the risk of a locator is raised on some tape. */
  lemma CheckCanRaise(cfg: Config, w: World, id: int, force: bool, i: nat, f: Fault) returns (t: seq<Event>)
    requires SafeFor(cfg, w, id) && Discerns(cfg) && id in w.index && ValidMeta(w.index[id])
    requires Considered(cfg, w.index[id], i, force) && f in LocatorRisk(cfg, w, Seen(cfg, w, id), i)
    ensures f in Check(cfg, On(w, t), id, force).w.faults
  {
    var junk := Junk(cfg, w.index[id].checksum);
    if f == DirtyDownload {
      t := CheckCanSpill(cfg, w, id, force, i, junk);
    } else if ObjectIntact(cfg, w, SlotOf(w.index[id].locators[i]), w.index[id].checksum) {
      t := CheckCanTear(cfg, w, id, force, i);
    } else {
      t := CheckCanUpload(cfg, w, id, force, i, f, junk);
    }
  }

  /** Such a rewrite can also survive: the check goes on and records the destroyed object as healthy. */
  lemma CheckCanMislead(cfg: Config, w: World, id: int, force: bool, i: nat) returns (t: seq<Event>)
    requires SafeFor(cfg, w, id) && id in w.index && ValidMeta(w.index[id]) && Seen(cfg, w, id).healthy
    requires Considered(cfg, w.index[id], i, force) && TornRePut in LocatorRisk(cfg, w, Seen(cfg, w, id), i)
    requires ObjectIntact(cfg, w, SlotOf(w.index[id].locators[i]), w.index[id].checksum)
    ensures !Safe(cfg, Check(cfg, On(w, t), id, force).w)
  {
    var n, slot := |w.index[id].locators|, SlotOf(w.index[id].locators[i]);
    var _ := Approach(cfg, w, id, force, i, []);
    var m1 := AtLocator(cfg, w, id, force, i);
    var m2 := SetHealth(m1, i, true);
    var w2 := w.(objects := w.objects - {slot}, faults := w.faults + {TornRePut});
    var t3 := Reach(cfg, w2, m2, i + 1, n, n, force, [Quiet]);
    var m3 := PassedTo(cfg, w2, m2, i + 1, n, force);
    TornHit(cfg, w, m1, i, force, false, t3 + [Quiet]);
    var hit := [Quiet] + ([Quiet] + ([Destroys(false)] + (t3 + [Quiet])));
    CheckFromOne(cfg, On(w, hit), m1, i, n, force, On(w2, t3 + [Quiet]), m2);
    t := Approach(cfg, w, id, force, i, hit);
    Misled(cfg, w2, m3, i);
    assert Check(cfg, On(w, t), id, force) == IndexPut(On(w2, [Quiet]), m3);
  }

  lemma Misled(cfg: Config, w: World, m: Meta, i: nat)
    requires i < |m.locators| && m.locators[i].healthy && SlotOf(m.locators[i]) !in w.objects
    ensures !Safe(cfg, IndexPut(On(w, [Quiet]), m).w)
  {
    var w1 := IndexPut(On(w, [Quiet]), m).w;
    assert w1.index[m.id] == m;
    assert !Truthful(cfg, w1, m);
    assert !SafeFor(cfg, w1, m.id);
  }

  // ---- replicating ----

  /** On an empty tape nothing happens any more. */
  lemma ReplicateDead(cfg: Config, w: World, m: Meta, backend: string, prefix: string)
    requires w.tape == []
    ensures Replicate(cfg, w, m, backend, prefix).w == w && !Replicate(cfg, w, m, backend, prefix).s.Done?
  {
  }

  lemma ReplicateAllDead(cfg: Config, w: World, items: seq<Meta>, backend: string, prefix: string)
    requires w.tape == []
    ensures ReplicateAll(cfg, w, items, backend, prefix).w == w
  {
    if items != [] { ReplicateDead(cfg, w, items[0], backend, prefix); }
  }

  lemma ReplicateToDead(cfg: Config, w: World, m: Meta, backends: seq<string>, prefix: string)
    requires w.tape == []
    ensures ReplicateTo(cfg, w, m, backends, prefix).w == w
  {
    if backends != [] { ReplicateDead(cfg, w, m, backends[0], prefix); }
  }

  lemma ReplicateAllFirst(cfg: Config, w: World, items: seq<Meta>, backend: string, prefix: string)
    requires items != []
    ensures var r := Replicate(cfg, w, items[0], backend, prefix);
            ReplicateAll(cfg, w, items, backend, prefix)
            == if r.s.Done? then ReplicateAll(cfg, r.w, items[1..], backend, prefix) else Out(r.w, r.s)
  {
  }

  lemma ReplicateToFirst(cfg: Config, w: World, m: Meta, backends: seq<string>, prefix: string)
    requires backends != []
    ensures var r := Replicate(cfg, w, m, backends[0], prefix);
            ReplicateTo(cfg, w, m, backends, prefix)
            == if r.s.Done? then ReplicateTo(cfg, r.w, r.meta, backends[1..], prefix) else Out(r.w, r.s)
  {
  }

  lemma FirstListed(cfg: Config, w: World, ids: seq<int>)
    requires Safe(cfg, w) && Listed(w, ids) != []
    ensures var m := Listed(w, ids)[0]; m.id in w.index && w.index[m.id] == m
    decreases |ids|
  {
    assert SafeFor(cfg, w, ids[0]);
    if ids[0] !in w.index { FirstListed(cfg, w, ids[1..]); }
  }

  lemma ReplicateCanRaise(cfg: Config, w: World, ids: seq<int>, backend: string, prefix: string, f: Fault) returns (t: seq<Event>)
    requires Safe(cfg, w) && Discerns(cfg) && CanRaise(cfg, w, ReplicateOp([], ids, backend, prefix), f)
    ensures var w1 := Apply(cfg, w, ReplicateOp(t, ids, backend, prefix)); f in w1.faults && (f == Blind ==> !Safe(cfg, w1))
  {
    var items := Listed(w, ids);
    FirstListed(cfg, w, ids);
    assert SafeFor(cfg, w, items[0].id);
    var junk := Junk(cfg, items[0].checksum);
    var good := Preimage(cfg, w, items[0].id);
    var tape := UploadTape(f, junk, good);
    t := [Quiet] + tape;
    Next(w, Quiet, tape);
    ListedSame(w, On(w, t), ids);
    AllCanRaise(cfg, w, items, backend, prefix, f, junk, good);
    assert Apply(cfg, w, ReplicateOp(t, ids, backend, prefix)) == ReplicateAll(cfg, On(w, tape), items, backend, prefix).w;
  }

  lemma AllCanRaise(cfg: Config, w: World, items: seq<Meta>, backend: string, prefix: string, f: Fault, junk: Bytes, good: Bytes)
    requires items != [] && Replicable(w, items[0]) && f in UploadRisk(cfg, backend)
    requires !Intact(cfg, junk, items[0].checksum) && Intact(cfg, good, items[0].checksum)
    ensures var w1 := ReplicateAll(cfg, On(w, UploadTape(f, junk, good)), items, backend, prefix).w;
            f in w1.faults && (f == Blind ==> !Safe(cfg, w1))
  {
    var w0 := On(w, UploadTape(f, junk, good));
    var r := Replicate(cfg, w0, items[0], backend, prefix);
    UploadHit(cfg, w, items[0], backend, prefix, f, junk, good);
    ReplicateAllFirst(cfg, w0, items, backend, prefix);
    ReplicateAllDead(cfg, r.w, items[1..], backend, prefix);
  }

  // ---- packing ----

  /** The world and the record after a pack that goes well, before anything is replicated. */
  function PackedWorld(cfg: Config, w: World, id: int, dest: Name): (World, Meta) {
    var w1 := w.(files := w.files[dest := ""],
                 faults := if Recorded(w, dest) then w.faults + {SamePath} else w.faults);
    var m := Fresh(cfg, w1, id, dest, HistoryOf(w, id));
    (w1.(index := w1.index[id := m], packed := w1.packed[id := Copy(m.path, m.checksum)]), m)
  }

  lemma PackGoesWell(w: World, dest: Name, rest: seq<Event>)
    ensures Pack(On(w, [Quiet] + rest), dest)
            == Out(On(w.(files := w.files[dest := ""], faults := if Recorded(w, dest) then w.faults + {SamePath} else w.faults), rest), Done)
  {
    Next(w, Quiet, rest);
  }

  lemma ArchiveStarts(cfg: Config, w: World, id: int, dest: Name, backends: seq<string>, prefix: string, rest: seq<Event>)
    requires id != 0 && dest.base != ""
    ensures var (w1, m) := PackedWorld(cfg, w, id, dest);
            Archive(cfg, On(w, [Quiet] + ([Quiet] + ([Quiet] + ([Quiet] + rest)))), id, dest, backends, prefix)
            == ReplicateTo(cfg, On(w1, rest), m, backends, prefix)
  {
    Next(w, Quiet, [Quiet] + ([Quiet] + ([Quiet] + rest)));
    PackGoesWell(w, dest, [Quiet] + ([Quiet] + rest));
    var w1 := w.(files := w.files[dest := ""], faults := if Recorded(w, dest) then w.faults + {SamePath} else w.faults);
    Next(w1, Quiet, [Quiet] + rest);
    Next(w1, Quiet, rest);
    HistorySame(w, On(w, [Quiet] + ([Quiet] + ([Quiet] + ([Quiet] + rest)))), id);
  }

  lemma HistorySame(w: World, w': World, id: int)
    requires w.index == w'.index
    ensures HistoryOf(w, id) == HistoryOf(w', id)
  {
  }

  lemma FirstCanRaise(cfg: Config, w: World, m: Meta, backends: seq<string>, prefix: string, f: Fault, junk: Bytes, good: Bytes)
    requires backends != [] && Replicable(w, m) && f in UploadRisk(cfg, backends[0])
    requires !Intact(cfg, junk, m.checksum) && Intact(cfg, good, m.checksum)
    ensures var w1 := ReplicateTo(cfg, On(w, UploadTape(f, junk, good)), m, backends, prefix).w;
            f in w1.faults && (f == Blind ==> !Safe(cfg, w1))
  {
    var w0 := On(w, UploadTape(f, junk, good));
    var r := Replicate(cfg, w0, m, backends[0], prefix);
    UploadHit(cfg, w, m, backends[0], prefix, f, junk, good);
    ReplicateToFirst(cfg, w0, m, backends, prefix);
    ReplicateToDead(cfg, r.w, r.meta, backends[1..], prefix);
  }

  lemma FirstSucceeds(cfg: Config, w: World, m: Meta, backends: seq<string>, prefix: string, good: Bytes, rest: seq<Event>)
    returns (w1: World, m1: Meta)
    requires backends != [] && Replicable(w, m) && m.checksum.algorithm.Md5? && Intact(cfg, good, m.checksum)
    ensures ReplicateTo(cfg, On(w, GoodTape(good, rest)), m, backends, prefix)
            == ReplicateTo(cfg, On(w1, rest), m1, backends[1..], prefix)
    ensures w1.files == w.files && m1.path == m.path && m1.checksum == m.checksum && m1.id == m.id
  {
    var w0 := On(w, GoodTape(good, rest));
    GoodReplicates(cfg, w, m, backends[0], prefix, good, rest);
    var r := Replicate(cfg, w0, m, backends[0], prefix);
    w1, m1 := r.w, r.meta;
    assert w1 == On(w1, rest);
    ReplicateToFirst(cfg, w0, m, backends, prefix);
  }

  /** The fault is raised when the record is replicated to the backends on this tape. */
  ghost predicate Raises(cfg: Config, w: World, m: Meta, backends: seq<string>, prefix: string, tape: seq<Event>, f: Fault) {
    f in ReplicateTo(cfg, On(w, tape), m, backends, prefix).w.faults
  }

  /** The record can be replicated to backend i, where the fault can be raised. */
  ghost predicate Can(cfg: Config, w: World, m: Meta, backends: seq<string>, i: nat, f: Fault, junk: Bytes, good: Bytes) {
    && Replicable(w, m) && m.checksum.algorithm.Md5? && i < |backends| && f in UploadRisk(cfg, backends[i])
    && !Intact(cfg, junk, m.checksum) && Intact(cfg, good, m.checksum)
  }

  lemma FirstRaises(cfg: Config, w: World, m: Meta, backends: seq<string>, prefix: string, f: Fault, junk: Bytes, good: Bytes)
    requires Can(cfg, w, m, backends, 0, f, junk, good)
    ensures Raises(cfg, w, m, backends, prefix, UploadTape(f, junk, good), f)
  {
    FirstCanRaise(cfg, w, m, backends, prefix, f, junk, good);
  }

  lemma LaterRaises(cfg: Config, w: World, m: Meta, backends: seq<string>, prefix: string, i: nat, f: Fault, junk: Bytes,
                    good: Bytes, rest: seq<Event>)
    returns (w1: World, m1: Meta)
    requires i > 0 && Can(cfg, w, m, backends, i, f, junk, good)
    ensures Can(cfg, w1, m1, backends[1..], i - 1, f, junk, good)
    ensures Raises(cfg, w1, m1, backends[1..], prefix, rest, f) ==> Raises(cfg, w, m, backends, prefix, GoodTape(good, rest), f)
  {
    w1, m1 := FirstSucceeds(cfg, w, m, backends, prefix, good, rest);
  }

  /** i replications that succeed, then an upload that raises the fault. */
  function ToTape(i: nat, f: Fault, junk: Bytes, good: Bytes): seq<Event> {
    if i == 0 then UploadTape(f, junk, good) else GoodTape(good, ToTape(i - 1, f, junk, good))
  }

  lemma ToTapeNext(i: nat, f: Fault, junk: Bytes, good: Bytes) returns (rest: seq<Event>)
    requires i > 0
    ensures rest == ToTape(i - 1, f, junk, good) && ToTape(i, f, junk, good) == GoodTape(good, rest)
  {
    rest := ToTape(i - 1, f, junk, good);
  }

  lemma {:induction false} ReplicateToCanRaise(cfg: Config, w: World, m: Meta, backends: seq<string>, prefix: string, i: nat,
                                               f: Fault, junk: Bytes, good: Bytes, tape: seq<Event>)
    requires Can(cfg, w, m, backends, i, f, junk, good) && tape == ToTape(i, f, junk, good)
    ensures Raises(cfg, w, m, backends, prefix, tape, f)
    decreases i
  {
    if i == 0 {
      FirstRaises(cfg, w, m, backends, prefix, f, junk, good);
    } else {
      var rest := ToTapeNext(i, f, junk, good);
      assert tape == GoodTape(good, rest);
      var w1, m1 := LaterRaises(cfg, w, m, backends, prefix, i, f, junk, good, rest);
      ReplicateToCanRaise(cfg, w1, m1, backends[1..], prefix, i - 1, f, junk, good, rest);
    }
  }

  lemma ArchiveCanRaise(cfg: Config, w: World, id: int, dest: Name, backends: seq<string>, prefix: string, i: nat, f: Fault)
    returns (t: seq<Event>)
    requires Discerns(cfg) && id != 0 && ValidBase(dest.base) && i < |backends| && f in UploadRisk(cfg, backends[i])
    ensures f in Archive(cfg, On(w, t), id, dest, backends, prefix).w.faults
  {
    var (w1, m) := PackedWorld(cfg, w, id, dest);
    var junk := Junk(cfg, m.checksum);
    var tape := ToTape(i, f, junk, "");
    ReplicateToCanRaise(cfg, w1, m, backends, prefix, i, f, junk, "", tape);
    t := [Quiet] + ([Quiet] + ([Quiet] + ([Quiet] + tape)));
    ArchiveStarts(cfg, w, id, dest, backends, prefix, tape);
  }

  lemma ArchiveCanBreak(cfg: Config, w: World, id: int, dest: Name, backends: seq<string>, prefix: string) returns (t: seq<Event>)
    requires Discerns(cfg) && id != 0 && ValidBase(dest.base) && backends != []
    ensures !Safe(cfg, Archive(cfg, On(w, t), id, dest, backends, prefix).w)
  {
    var (w1, m) := PackedWorld(cfg, w, id, dest);
    var junk := Junk(cfg, m.checksum);
    FirstCanRaise(cfg, w1, m, backends, prefix, Blind, junk, "");
    t := [Quiet] + ([Quiet] + ([Quiet] + ([Quiet] + UploadTape(Blind, junk, ""))));
    ArchiveStarts(cfg, w, id, dest, backends, prefix, UploadTape(Blind, junk, ""));
  }

  /** Packing over a recorded path can die and leave junk there. */
  lemma ArchiveCanOverwrite(cfg: Config, w: World, id: int, dest: Name, backends: seq<string>, prefix: string)
    returns (t: seq<Event>)
    requires Discerns(cfg) && dest.base != "" && Recorded(w, dest)
    ensures var w1 := Archive(cfg, On(w, t), id, dest, backends, prefix).w; SamePath in w1.faults && !Safe(cfg, w1)
  {
    var j :| j in w.packed && w.packed[j].path == dest;
    var junk := Junk(cfg, w.packed[j].checksum);
    t := [Quiet] + ([DiesWith(junk)] + []);
    Next(w, Quiet, [DiesWith(junk)] + []);
    Next(w, DiesWith(junk), []);
    var w1 := Archive(cfg, On(w, t), id, dest, backends, prefix).w;
    assert w1.packed == w.packed && w1.files == w.files[dest := junk];
    assert !LocalClean(cfg, w1, j);
    assert !SafeFor(cfg, w1, j);
  }

  // ---- the exact conditions ----

  lemma CanBeRaised(cfg: Config, w: World, op: Op, f: Fault) returns (t: seq<Event>)
    requires Safe(cfg, w) && Discerns(cfg) && CanRaise(cfg, w, op, f)
    ensures f in Apply(cfg, w, Played(op, t)).faults
  {
    match op
    case ArchiveOp(_, id, dest, backends, prefix) =>
      if f == SamePath {
        t := ArchiveCanOverwrite(cfg, w, id, dest, backends, prefix);
      } else {
        var i :| 0 <= i < |backends| && f in UploadRisk(cfg, backends[i]);
        t := ArchiveCanRaise(cfg, w, id, dest, backends, prefix, i, f);
      }
    case ReplicateOp(_, ids, backend, prefix) =>
      t := ReplicateCanRaise(cfg, w, ids, backend, prefix, f);
    case CheckOp(_, id, force) =>
      assert SafeFor(cfg, w, id);
      var i: nat :| Considered(cfg, w.index[id], i, force) && f in LocatorRisk(cfg, w, Seen(cfg, w, id), i);
      t := CheckCanRaise(cfg, w, id, force, i, f);
    case _ => assert false;
  }

  /** From a safe state some environment makes a call raise a fault if and only if the state before the call says so. */
  lemma FaultExact(cfg: Config, w: World, op: Op, f: Fault)
    requires Safe(cfg, w) && Discerns(cfg) && f !in w.faults
    ensures (exists tape :: f in Apply(cfg, w, Played(op, tape)).faults) <==> CanRaise(cfg, w, op, f)
  {
    if CanRaise(cfg, w, op, f) {
      var t := CanBeRaised(cfg, w, op, f);
    }
    forall tape | f in Apply(cfg, w, Played(op, tape)).faults ensures CanRaise(cfg, w, op, f) {
      OnlyThese(cfg, w, op, tape, f);
    }
  }

  lemma CanBeBroken(cfg: Config, w: World, op: Op, f: Fault) returns (t: seq<Event>)
    requires Safe(cfg, w) && Discerns(cfg) && CanRaise(cfg, w, op, f)
    ensures !Safe(cfg, Apply(cfg, w, Played(op, t)))
  {
    match op
    case ArchiveOp(_, id, dest, backends, prefix) =>
      if f == SamePath {
        t := ArchiveCanOverwrite(cfg, w, id, dest, backends, prefix);
      } else {
        t := ArchiveCanBreak(cfg, w, id, dest, backends, prefix);
      }
    case ReplicateOp(_, ids, backend, prefix) =>
      t := ReplicateCanRaise(cfg, w, ids, backend, prefix, Blind);
    case CheckOp(_, id, force) =>
      assert SafeFor(cfg, w, id);
      var i: nat :| Considered(cfg, w.index[id], i, force) && f in LocatorRisk(cfg, w, Seen(cfg, w, id), i);
      var junk := Junk(cfg, w.index[id].checksum);
      if !Seen(cfg, w, id).healthy {
        t := CheckCanSpill(cfg, w, id, force, i, junk);
      } else if ObjectIntact(cfg, w, SlotOf(w.index[id].locators[i]), w.index[id].checksum) {
        t := CheckCanMislead(cfg, w, id, force, i);
      } else {
        t := CheckCanUpload(cfg, w, id, force, i, Blind, junk);
      }
    case _ => assert false;
  }

  /** A call from a safe state keeps it safe in every environment if and only if it can raise no fault. */
  lemma SafetyExact(cfg: Config, w: World, op: Op)
    requires Safe(cfg, w) && Discerns(cfg) && OpOk(cfg, op) && w.faults == {}
    ensures (forall tape :: Safe(cfg, Apply(cfg, w, Played(op, tape)))) <==> forall f :: !CanRaise(cfg, w, op, f)
  {
    if f :| CanRaise(cfg, w, op, f) {
      var t := CanBeBroken(cfg, w, op, f);
    } else {
      forall tape ensures Safe(cfg, Apply(cfg, w, Played(op, tape))) { Harmless(cfg, w, op, tape); }
    }
  }

  lemma Harmless(cfg: Config, w: World, op: Op, tape: seq<Event>)
    requires Safe(cfg, w) && OpOk(cfg, op) && w.faults == {} && forall f :: !CanRaise(cfg, w, op, f)
    ensures var w1 := Apply(cfg, w, Played(op, tape)); Safe(cfg, w1) && w1.faults == {}
  {
    var w1 := Apply(cfg, w, Played(op, tape));
    forall f ensures f !in w1.faults {
      if f in w1.faults { OnlyThese(cfg, w, op, tape, f); }
    }
    ApplyKeeps(cfg, w, Played(op, tape));
  }

  /** No call of the run can raise a fault in the state it finds. */
  ghost predicate Careful(cfg: Config, w: World, ops: seq<Op>)
    decreases |ops|
  {
    ops == [] || ((forall f :: !CanRaise(cfg, w, ops[0], f)) && Careful(cfg, Apply(cfg, w, ops[0]), ops[1..]))
  }

  /** Such a run keeps every copy safe, whatever the environment does. */
  lemma {:induction false} CarefulSafety(cfg: Config, w: World, ops: seq<Op>)
    requires Safe(cfg, w) && w.faults == {} && Careful(cfg, w, ops) && forall i :: 0 <= i < |ops| ==> OpOk(cfg, ops[i])
    ensures Safe(cfg, Run(cfg, w, ops)) && Run(cfg, w, ops).faults == {}
    decreases |ops|
  {
    if ops != [] {
      Harmless(cfg, w, ops[0], ops[0].tape);
      assert Played(ops[0], ops[0].tape) == ops[0];
      CarefulSafety(cfg, Apply(cfg, w, ops[0]), ops[1..]);
    }
  }
}
