/** Which faults a call of the helper can raise, read off the state before the call. */
module ReplicaRisk {
  import opened ReplicaModel
  import opened ReplicaSafety
  import opened ReplicaOutcome

  /** The record's file can be replicated at all. */
  predicate Replicable(w: World, m: Meta) {
    ValidMeta(m) && ValidBase(m.path.base) && m.path in w.files
  }

  /** An upload can mismatch three times, and where objects are put again, damage what it stored. */
  function UploadRisk(cfg: Config, backend: string): set<Fault> {
    {Blind} + (if backend in cfg.canRePut then {TornRePut} else {})
  }

  predicate Considered(cfg: Config, m: Meta, i: nat, force: bool) {
    i < |m.locators| && (force || !m.locators[i].healthy) && m.locators[i].backend in cfg.registered
  }

  /** What looking at one locator can raise; m.healthy says whether the local file is intact. Beside an intact file an
      intact object is put again unless its tag matches, and any other is repaired by an upload. Without an intact file
      an object is downloaded to the archive path, and put again if it is intact. */
  function LocatorRisk(cfg: Config, w: World, m: Meta, i: nat): set<Fault>
    requires i < |m.locators|
  {
    var slot, again := SlotOf(m.locators[i]), m.locators[i].backend in cfg.canRePut;
    var intact := ObjectIntact(cfg, w, slot, m.checksum);
    if m.healthy then
      if intact then (if again && !TagMatches(cfg, w.objects[slot], m.checksum) then {TornRePut} else {})
      else if Replicable(w, m) then UploadRisk(cfg, m.locators[i].backend)
      else {}
    else (if slot in w.objects then {DirtyDownload} else {}) + (if again && intact then {TornRePut} else {})
  }

  /** The record as a check sees it after it has looked at the local file. */
  function Seen(cfg: Config, w: World, id: int): Meta
    requires id in w.index
  {
    var m := w.index[id];
    m.(healthy := FileIntact(cfg, w, m.path, m.checksum))
  }

  predicate Recorded(w: World, path: Name) {
    exists id :: id in w.packed && w.packed[id].path == path
  }

  /** The faults that one call can raise. */
  ghost predicate CanRaise(cfg: Config, w: World, op: Op, f: Fault) {
    match op
    case ArchiveOp(_, id, dest, backends, _) =>
      || (f == SamePath && dest.base != "" && Recorded(w, dest))
      || (id != 0 && ValidBase(dest.base) && exists i :: 0 <= i < |backends| && f in UploadRisk(cfg, backends[i]))
    case ReplicateOp(_, ids, backend, _) =>
      Listed(w, ids) != [] && Replicable(w, Listed(w, ids)[0]) && f in UploadRisk(cfg, backend)
    case CheckOp(_, id, force) =>
      id in w.index && ValidMeta(w.index[id])
      && exists i: nat :: Considered(cfg, w.index[id], i, force) && f in LocatorRisk(cfg, w, Seen(cfg, w, id), i)
    case RetainOp(_, _) => false
  }

  /** The same call in another environment. */
  function Played(op: Op, tape: seq<Event>): Op {
    match op
    case ArchiveOp(_, id, dest, backends, prefix) => ArchiveOp(tape, id, dest, backends, prefix)
    case ReplicateOp(_, ids, backend, prefix) => ReplicateOp(tape, ids, backend, prefix)
    case CheckOp(_, id, force) => CheckOp(tape, id, force)
    case RetainOp(_, ids) => RetainOp(tape, ids)
  }

  // ---- nothing else can be raised ----

  lemma RePutRaises(cfg: Config, w: World, slot: Slot, sum: Checksum)
    ensures forall f :: f in RePut(cfg, w, slot, sum).w.faults ==> f in w.faults || (f == TornRePut && slot.backend in cfg.canRePut)
  {
  }

  lemma DownloadRaises(cfg: Config, w: World, bytes: Bytes, save: SavePath, sum: Checksum)
    ensures forall f :: f in Download(cfg, w, bytes, save, sum).w.faults ==> f in w.faults || (f == DirtyDownload && save.At?)
  {
  }

  lemma VerifyRaises(cfg: Config, w: World, slot: Slot, sum: Checksum, save: SavePath)
    ensures var v := ChecksumFromStorage(cfg, w, slot, sum, save);
      forall f :: f in v.w.faults ==>
        || f in w.faults
        || (f == TornRePut && slot.backend in cfg.canRePut && ObjectIntact(cfg, w, slot, sum)
            && (save.Nowhere? ==> !TagMatches(cfg, w.objects[slot], sum)))
        || (f == DirtyDownload && save.At? && slot in w.objects)
  {
    if slot in w.objects {
      var d := Download(cfg, Probe(w).w, w.objects[slot].bytes, save, sum);
      DownloadRaises(cfg, Probe(w).w, w.objects[slot].bytes, save, sum);
      RePutRaises(cfg, d.w, slot, sum);
    }
  }

  lemma TryRaises(cfg: Config, w: World, slot: Slot, sum: Checksum)
    ensures forall f :: f in Try(cfg, w, slot, sum).w.faults ==> f in w.faults || (f == TornRePut && slot.backend in cfg.canRePut)
  {
    var p := BackendPut(Probe(w).w, slot);
    VerifyRaises(cfg, p.w, slot, sum, Nowhere);
  }

  lemma {:induction false} UploadRaises(cfg: Config, w: World, slot: Slot, sum: Checksum, tries: nat, err: bool)
    ensures forall f :: f in Upload(cfg, w, slot, sum, tries, err).w.faults ==>
              f in w.faults || (f == TornRePut && slot.backend in cfg.canRePut)
    decreases tries
  {
    if tries > 0 {
      TryRaises(cfg, w, slot, sum);
      var r := Try(cfg, w, slot, sum);
      if r.Again? { UploadRaises(cfg, r.w, slot, sum, tries - 1, r.err); }
    }
  }

  /** Sending ends before the upload, with it, or with the index write behind it. */
  lemma SendEnds(cfg: Config, w: World, m1: Meta, backend: string, prefix: string)
    requires exists i :: 0 <= i < |m1.locators| && m1.locators[i].backend == backend
    ensures var r := Send(cfg, w, m1, backend, prefix);
      var up := Upload(cfg, Probe(w).w, Slot(backend, Name(prefix, m1.path.base)), m1.checksum, 3, false);
      || r.w == w || r.w == Probe(w).w
      || (m1.path in w.files
          && (r.w == up.w || r.w == IndexPut(Flag(up.w, Blind, up.end.Unverified?), Confirmed(m1, backend, prefix)).w))
  {
  }

  lemma SendRaises(cfg: Config, w: World, m1: Meta, backend: string, prefix: string)
    requires exists i :: 0 <= i < |m1.locators| && m1.locators[i].backend == backend
    ensures forall f :: f in Send(cfg, w, m1, backend, prefix).w.faults ==>
              f in w.faults || (m1.path in w.files && f in UploadRisk(cfg, backend))
  {
    SendEnds(cfg, w, m1, backend, prefix);
    UploadRaises(cfg, Probe(w).w, Slot(backend, Name(prefix, m1.path.base)), m1.checksum, 3, false);
  }

  lemma ReplicateRaises(cfg: Config, w: World, m: Meta, backend: string, prefix: string)
    ensures var r := Replicate(cfg, w, m, backend, prefix);
      && (forall f :: f in r.w.faults ==> f in w.faults || (Replicable(w, m) && f in UploadRisk(cfg, backend)))
      && (r.s.Done? ==> Replicable(w, m))
  {
    var m1 := Marked(m, backend, prefix);
    SendRaises(cfg, IndexPut(w, m1).w, m1, backend, prefix);
  }

  /** What replicating leaves of everything else: local files and other objects. */
  lemma ReplicateFrame(cfg: Config, w: World, m: Meta, backend: string, prefix: string)
    ensures var r := Replicate(cfg, w, m, backend, prefix);
      && r.w.files == w.files && r.w.packed == w.packed
      && forall s :: s != Slot(backend, Name(prefix, m.path.base)) ==> SameAt(w.objects, r.w.objects, s)
  {
    var m1 := Marked(m, backend, prefix);
    SendFrame(cfg, IndexPut(w, m1).w, m1, backend, prefix);
  }

  lemma SendFrame(cfg: Config, w: World, m1: Meta, backend: string, prefix: string)
    requires exists i :: 0 <= i < |m1.locators| && m1.locators[i].backend == backend
    ensures var r := Send(cfg, w, m1, backend, prefix);
      && r.w.files == w.files && r.w.packed == w.packed
      && forall s :: s != Slot(backend, Name(prefix, m1.path.base)) ==> SameAt(w.objects, r.w.objects, s)
  {
    var r, slot := Send(cfg, w, m1, backend, prefix), Slot(backend, Name(prefix, m1.path.base));
    var up := Upload(cfg, Probe(w).w, slot, m1.checksum, 3, false);
    SendEnds(cfg, w, m1, backend, prefix);
    UploadFacts(cfg, Probe(w).w, slot, m1.checksum, 3, false);
    assert r.w.files == w.files && r.w.packed == w.packed;
    assert r.w.objects == w.objects || r.w.objects == up.w.objects;
    forall s | s != slot ensures SameAt(w.objects, r.w.objects, s) {
      assert SameAt(Probe(w).w.objects, up.w.objects, s);
    }
  }

  lemma {:induction false} ReplicateAllRaises(cfg: Config, w: World, items: seq<Meta>, backend: string, prefix: string)
    ensures forall f :: f in ReplicateAll(cfg, w, items, backend, prefix).w.faults ==>
              f in w.faults || (items != [] && Replicable(w, items[0]) && f in UploadRisk(cfg, backend))
    decreases |items|
  {
    if items != [] {
      ReplicateRaises(cfg, w, items[0], backend, prefix);
      var r := Replicate(cfg, w, items[0], backend, prefix);
      if r.s.Done? { ReplicateAllRaises(cfg, r.w, items[1..], backend, prefix); }
    }
  }

  lemma {:induction false} ReplicateToRaises(cfg: Config, w: World, m: Meta, backends: seq<string>, prefix: string)
    ensures forall f :: f in ReplicateTo(cfg, w, m, backends, prefix).w.faults ==>
              f in w.faults || (ValidBase(m.path.base) && exists i :: 0 <= i < |backends| && f in UploadRisk(cfg, backends[i]))
    decreases |backends|
  {
    if backends != [] {
      ReplicateRaises(cfg, w, m, backends[0], prefix);
      ReplicateMeta(cfg, w, m, backends[0], prefix);
      var r := Replicate(cfg, w, m, backends[0], prefix);
      if r.s.Done? {
        ReplicateToRaises(cfg, r.w, r.meta, backends[1..], prefix);
        forall f, i | 0 <= i < |backends[1..]| && f in UploadRisk(cfg, backends[1..][i])
          ensures exists k :: 0 <= k < |backends| && f in UploadRisk(cfg, backends[k])
        {
          assert backends[i + 1] == backends[1..][i];
        }
      }
    }
  }

  lemma PublishRaises(cfg: Config, w: World, m: Meta, backends: seq<string>, prefix: string)
    ensures forall f :: f in Publish(cfg, w, m, backends, prefix).w.faults ==>
              f in w.faults || (ValidBase(m.path.base) && exists i :: 0 <= i < |backends| && f in UploadRisk(cfg, backends[i]))
  {
    ReplicateToRaises(cfg, Record(w, m).w, m, backends, prefix);
  }

  lemma PackRaises(w: World, dest: Name)
    ensures forall f :: f in Pack(w, dest).w.faults ==> f in w.faults || (f == SamePath && Recorded(w, dest))
  {
  }

  lemma ArchiveRaises(cfg: Config, w: World, id: int, dest: Name, backends: seq<string>, prefix: string)
    ensures forall f :: f in Archive(cfg, w, id, dest, backends, prefix).w.faults ==>
      || f in w.faults
      || (f == SamePath && dest.base != "" && Recorded(w, dest))
      || (id != 0 && ValidBase(dest.base) && exists i :: 0 <= i < |backends| && f in UploadRisk(cfg, backends[i]))
  {
    PackRaises(Probe(w).w, dest);
    var packing := Pack(Probe(w).w, dest);
    if dest.base != "" && Probe(w).s.Done? && packing.s.Done? {
      var hash := Probe(packing.w);
      if hash.s.Done? && id != 0 {
        PublishRaises(cfg, hash.w, Fresh(cfg, hash.w, id, dest, HistoryOf(w, id)), backends, prefix);
      }
    }
  }

  // ---- a check, locator by locator ----

  lemma RepairRaises(cfg: Config, w: World, m: Meta, i: nat)
    requires i < |m.locators| && m.healthy && m.locators[i].key.base == m.path.base
    requires !ObjectIntact(cfg, w, SlotOf(m.locators[i]), m.checksum)
    ensures forall f :: f in Repair(cfg, w, m, i).w.faults ==>
              f in w.faults || (Replicable(w, m) && f in UploadRisk(cfg, m.locators[i].backend))
  {
    var l := m.locators[i];
    var r := Replicate(cfg, w, m, l.backend, l.key.dir);
    ReplicateRaises(cfg, w, m, l.backend, l.key.dir);
    VerifyRaises(cfg, r.w, SlotOf(l), m.checksum, Nowhere);
    if !Replicable(w, m) { NotReplicable(cfg, w, m, l.backend, l.key.dir); }
  }

  /** Without a usable record and its file nothing is uploaded: no success, no fault, and objects and files stay. */
  lemma NotReplicable(cfg: Config, w: World, m: Meta, backend: string, prefix: string)
    requires !Replicable(w, m)
    ensures var r := Replicate(cfg, w, m, backend, prefix);
      !r.s.Done? && r.w.objects == w.objects && r.w.files == w.files && r.w.faults == w.faults
  {
  }

  lemma LocatorRaises(cfg: Config, w: World, m: Meta, i: nat, force: bool)
    requires i < |m.locators| && m.locators[i].key.base == m.path.base
    ensures forall f :: f in CheckOne(cfg, w, m, i, force).w.faults ==>
              f in w.faults || (Considered(cfg, m, i, force) && f in LocatorRisk(cfg, w, m, i))
  {
    if Considered(cfg, m, i, force) {
      var slot := SlotOf(m.locators[i]);
      var v := ChecksumFromStorage(cfg, w, slot, m.checksum, SaveFor(m));
      VerifyRaises(cfg, w, slot, m.checksum, SaveFor(m));
      VerifyFacts(cfg, w, slot, m.checksum, SaveFor(m));
      if m.healthy && v.v.Unhealthy? { RepairRaises(cfg, v.w, m, i); }
    }
  }

  /** The rest of a check finds its locators, their objects and, if it was intact, the local file as they were. */
  ghost predicate Alike(w0: World, m0: Meta, w: World, m: Meta, i: nat) {
    && m.path == m0.path && m.checksum == m0.checksum && m.healthy == m0.healthy && m.id == m0.id
    && |m.locators| == |m0.locators|
    && (forall k :: 0 <= k < |m.locators| ==> SlotOf(m.locators[k]) == SlotOf(m0.locators[k]))
    && (forall k :: i <= k < |m.locators| ==>
          m.locators[k] == m0.locators[k] && SameAt(w0.objects, w.objects, SlotOf(m0.locators[k])))
    && (m.healthy ==> w.files == w0.files)
  }

  /** Replicating to the backend of locator i changes that locator only, and no slot. */
  lemma ReplicateStep(cfg: Config, w: World, m: Meta, i: nat)
    requires i < |m.locators| && KeysFollowPath(m) && DistinctBackends(m)
    ensures var r := Replicate(cfg, w, m, m.locators[i].backend, m.locators[i].key.dir);
      StepAt(w, r.w, m, r.meta, i) && r.meta.id == m.id && r.meta.healthy == m.healthy && r.w.files == w.files
  {
    var l := m.locators[i];
    var r := Replicate(cfg, w, m, l.backend, l.key.dir);
    ReplicateFrame(cfg, w, m, l.backend, l.key.dir);
    assert l.key == Name(l.key.dir, m.path.base);
    ReplicateLength(cfg, w, m, l.backend, l.key.dir, i);
    forall k | 0 <= k < |m.locators|
      ensures SlotOf(r.meta.locators[k]) == SlotOf(m.locators[k]) && (k != i ==> r.meta.locators[k] == m.locators[k])
      ensures r.meta.(locators := []) == m.(locators := [])
    {
      ReplicateShape(cfg, w, m, l.backend, l.key.dir, k);
    }
  }

  lemma RepairFrame(cfg: Config, w: World, m: Meta, i: nat)
    requires i < |m.locators| && KeysFollowPath(m) && DistinctBackends(m) && m.healthy
    ensures var r := Repair(cfg, w, m, i);
      StepAt(w, r.w, m, r.meta, i) && r.meta.id == m.id && r.meta.healthy == m.healthy && r.w.files == w.files
  {
    var l := m.locators[i];
    var rep, r := Replicate(cfg, w, m, l.backend, l.key.dir), Repair(cfg, w, m, i);
    ReplicateStep(cfg, w, m, i);
    VerifyFacts(cfg, rep.w, SlotOf(l), m.checksum, Nowhere);
    RepairEnds(cfg, w, m, i);
    assert StepAt(rep.w, r.w, rep.meta, r.meta, i);
    StepTrans(w, rep.w, r.w, m, rep.meta, r.meta, i);
  }

  lemma RepairEnds(cfg: Config, w: World, m: Meta, i: nat)
    requires i < |m.locators| && m.healthy
    ensures var l := m.locators[i];
      var rep, r := Replicate(cfg, w, m, l.backend, l.key.dir), Repair(cfg, w, m, i);
      || r == Checking(rep.w, rep.meta, Crashed)
      || (r.w == ChecksumFromStorage(cfg, rep.w, SlotOf(l), m.checksum, Nowhere).w
          && (r.meta == rep.meta || exists h :: r.meta == SetHealth(rep.meta, i, h)))
  {
  }

  lemma LocatorFrame(cfg: Config, w: World, m: Meta, i: nat, force: bool)
    requires i < |m.locators| && KeysFollowPath(m) && DistinctBackends(m)
    ensures var r := CheckOne(cfg, w, m, i, force);
      StepAt(w, r.w, m, r.meta, i) && r.meta.id == m.id && r.meta.healthy == m.healthy && (m.healthy ==> r.w.files == w.files)
  {
    var slot := SlotOf(m.locators[i]);
    var v := ChecksumFromStorage(cfg, w, slot, m.checksum, SaveFor(m));
    VerifyFacts(cfg, w, slot, m.checksum, SaveFor(m));
    if Considered(cfg, m, i, force) && m.healthy && v.v.Unhealthy? {
      RepairFrame(cfg, v.w, m, i);
      var r := Repair(cfg, v.w, m, i);
      forall s | s != slot ensures SameAt(w.objects, r.w.objects, s) {
        assert SameAt(w.objects, v.w.objects, s) && SameAt(v.w.objects, r.w.objects, s);
      }
    }
  }

  lemma StepAlike(cfg: Config, w0: World, m0: Meta, w: World, m: Meta, i: nat, force: bool)
    requires Alike(w0, m0, w, m, i) && i < |m.locators| && KeysFollowPath(m0) && DistinctBackends(m0)
    ensures var r := CheckOne(cfg, w, m, i, force); Alike(w0, m0, r.w, r.meta, i + 1)
  {
    AlikeShape(w0, m0, w, m, i);
    LocatorFrame(cfg, w, m, i, force);
    var r := CheckOne(cfg, w, m, i, force);
    forall k | i < k < |m.locators| ensures SameAt(w0.objects, r.w.objects, SlotOf(m0.locators[k])) {
      assert m.locators[k].backend != m.locators[i].backend;
      assert SameAt(w.objects, r.w.objects, SlotOf(m.locators[k]));
    }
  }

  lemma AlikeShape(w0: World, m0: Meta, w: World, m: Meta, i: nat)
    requires Alike(w0, m0, w, m, i) && KeysFollowPath(m0) && DistinctBackends(m0)
    ensures KeysFollowPath(m) && DistinctBackends(m)
  {
    forall k | 0 <= k < |m.locators| ensures m.locators[k].backend == m0.locators[k].backend && m.locators[k].key == m0.locators[k].key {
      assert SlotOf(m.locators[k]) == SlotOf(m0.locators[k]);
    }
  }

  lemma SameRisk(cfg: Config, w0: World, m0: Meta, w: World, m: Meta, i: nat, f: Fault)
    requires Alike(w0, m0, w, m, i) && i < |m.locators| && (m0.healthy ==> m0.path in w0.files)
    ensures f in LocatorRisk(cfg, w, m, i) ==> f in LocatorRisk(cfg, w0, m0, i)
  {
    assert m.locators[i] == m0.locators[i] && SameAt(w0.objects, w.objects, SlotOf(m0.locators[i]));
  }

  lemma {:induction false} CheckFromRaises(cfg: Config, w0: World, m0: Meta, w: World, m: Meta, i: nat, force: bool, f: Fault)
    requires Alike(w0, m0, w, m, i) && i <= |m.locators| && KeysFollowPath(m0) && DistinctBackends(m0)
    requires m0.healthy ==> m0.path in w0.files
    requires f in CheckFrom(cfg, w, m, i, |m.locators|, force).w.faults && f !in w.faults
    ensures exists k: nat :: Considered(cfg, m0, k, force) && f in LocatorRisk(cfg, w0, m0, k)
    decreases |m.locators| - i
  {
    var r := CheckOne(cfg, w, m, i, force);
    AlikeShape(w0, m0, w, m, i);
    LocatorRaises(cfg, w, m, i, force);
    StepAlike(cfg, w0, m0, w, m, i, force);
    if f in r.w.faults {
      SameRisk(cfg, w0, m0, w, m, i, f);
      assert Considered(cfg, m0, i, force);
    } else {
      CheckFromRaises(cfg, w0, m0, r.w, r.meta, i + 1, force, f);
    }
  }

  lemma CheckRaises(cfg: Config, w: World, id: int, force: bool, f: Fault)
    requires SafeFor(cfg, w, id) && f in Check(cfg, w, id, force).w.faults && f !in w.faults
    ensures id in w.index && ValidMeta(w.index[id])
    ensures exists i: nat :: Considered(cfg, w.index[id], i, force) && f in LocatorRisk(cfg, w, Seen(cfg, w, id), i)
  {
    var m, m0 := Seen(cfg, w, id), w.index[id];
    var local := ChecksumFromFile(cfg, Probe(w).w, m0.path, m0.checksum);
    assert Alike(w, m, local.w, m, 0);
    CheckFromRaises(cfg, w, m, local.w, m, 0, force, f);
    var k: nat :| Considered(cfg, m, k, force) && f in LocatorRisk(cfg, w, m, k);
    assert Considered(cfg, m0, k, force);
  }

  /** Only these faults can be raised, whatever the environment does. */
  lemma OnlyThese(cfg: Config, w: World, op: Op, tape: seq<Event>, f: Fault)
    requires Safe(cfg, w) && f !in w.faults && f in Apply(cfg, w, Played(op, tape)).faults
    ensures CanRaise(cfg, w, op, f)
  {
    var w0 := w.(tape := tape);
    match op
    case ArchiveOp(_, id, dest, backends, prefix) => ArchiveRaises(cfg, w0, id, dest, backends, prefix);
    case ReplicateOp(_, ids, backend, prefix) =>
      ListedSame(w0, w, ids);
      ReplicateAllRaises(cfg, Probe(w0).w, Listed(w0, ids), backend, prefix);
    case CheckOp(_, id, force) =>
      TapeKeeps(cfg, w, tape);
      CheckRaises(cfg, w0, id, force, f);
      SeenSame(cfg, w, w0, id);
      var i: nat :| Considered(cfg, w0.index[id], i, force) && f in LocatorRisk(cfg, w0, Seen(cfg, w0, id), i);
      assert Considered(cfg, w.index[id], i, force) && f in LocatorRisk(cfg, w, Seen(cfg, w, id), i);
    case RetainOp(_, ids) => RetainGrows(Probe(w0).w, Listed(w0, ids));
  }

  lemma SeenSame(cfg: Config, w: World, w0: World, id: int)
    requires id in w.index && w0 == w.(tape := w0.tape)
    ensures Seen(cfg, w0, id) == Seen(cfg, w, id)
  {
  }
}
