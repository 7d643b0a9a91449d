/** What a helper call that returns without error has achieved. */
module ReplicaOutcome {
  import opened ReplicaModel
  import opened ReplicaSafety

  /** A replication that succeeds has stored an intact object and recorded it as a healthy replica. */
  lemma ReplicateDelivers(cfg: Config, w: World, meta: Meta, backend: string, prefix: string)
    requires SafeFor(cfg, w, meta.id) && MetaOk(cfg, w, meta)
    ensures var r := Replicate(cfg, w, meta, backend, prefix);
      var l := Locator(backend, Name(prefix, meta.path.base), true);
      r.s.Done? && r.w.faults == {} ==>
        && meta.id in r.w.index && r.w.index[meta.id] == r.meta && l in r.meta.locators
        && ObjectIntact(cfg, r.w, SlotOf(l), meta.checksum)
  {
    var r := Replicate(cfg, w, meta, backend, prefix);
    if r.s.Done? {
      ReplicateKeeps(cfg, w, meta, backend, prefix);
      var m1 := Marked(meta, backend, prefix);
      assert r.meta == Confirmed(m1, backend, prefix);
      var i := LastOf(m1.locators, backend);
      assert r.meta.locators[i] == Locator(backend, Name(prefix, meta.path.base), true);
    }
  }

  // ---- a mismatch that is no false alarm ----

  /** Every tag that the environment reports is the MD5 of what was stored, or the checksum is no MD5, so that other tags
      are not taken for a mismatch. */
  ghost predicate OwnTags(w: World, sum: Checksum) {
    sum.algorithm.Sha256? || forall i :: 0 <= i < |w.tape| ==> w.tape[i].tag != OtherTag
  }

  lemma PopTags(w: World, w1: World, sum: Checksum)
    requires OwnTags(w, sum) && w1.tape == Pop(w).tape
    ensures OwnTags(w1, sum)
  {
    if !sum.algorithm.Sha256? {
      forall i | 0 <= i < |w1.tape| ensures w1.tape[i].tag != OtherTag { assert w1.tape[i] == w.tape[i + 1]; }
    }
  }

  lemma VerifyTags(cfg: Config, w: World, slot: Slot, sum: Checksum)
    requires OwnTags(w, sum)
    ensures OwnTags(ChecksumFromStorage(cfg, w, slot, sum, Nowhere).w, sum)
  {
    var st := Probe(w);
    PopTags(w, st.w, sum);
    if slot in w.objects {
      var d := Download(cfg, st.w, w.objects[slot].bytes, Nowhere, sum);
      PopTags(st.w, d.w, sum);
      if slot.backend in cfg.canRePut { PopTags(d.w, RePut(cfg, d.w, slot, sum).w, sum); }
    }
  }

  lemma VerifyOutcome(cfg: Config, w: World, slot: Slot, sum: Checksum)
    ensures var v := ChecksumFromStorage(cfg, w, slot, sum, Nowhere);
      && (v.v.Unhealthy? ==> v.w.faults == w.faults && !ObjectIntact(cfg, v.w, slot, sum))
      && (v.v.Healthy? && w.faults == {} ==> (ObjectIntact(cfg, v.w, slot, sum) <==> v.w.faults == {}))
  {
  }

  lemma TryOutcome(cfg: Config, w: World, slot: Slot, sum: Checksum)
    requires OwnTags(w, sum) && w.faults == {}
    ensures var r := Try(cfg, w, slot, sum);
      && OwnTags(r.w, sum)
      && (r.Again? ==> r.w.faults == {} && (!r.err ==> !ObjectIntact(cfg, r.w, slot, sum)))
      && (r.Stop? && r.end.Stored? ==> (ObjectIntact(cfg, r.w, slot, sum) <==> r.w.faults == {}))
      && (r.Stop? ==> !r.end.Unverified?)
  {
    var p := BackendPut(Probe(w).w, slot);
    PopTags(w, Probe(w).w, sum);
    PopTags(Probe(w).w, p.w, sum);
    VerifyTags(cfg, p.w, slot, sum);
    VerifyOutcome(cfg, p.w, slot, sum);
  }

  /** An upload that runs out on a mismatch has left an object that is not intact; one that ends as stored has left an
      intact one exactly if no rewrite damaged it. */
  lemma {:induction false} UploadOutcome(cfg: Config, w: World, slot: Slot, sum: Checksum, tries: nat, err: bool)
    requires OwnTags(w, sum) && w.faults == {} && (tries > 0 || err || !ObjectIntact(cfg, w, slot, sum))
    ensures var u := Upload(cfg, w, slot, sum, tries, err);
      && (u.end.Unverified? ==> u.w.faults == {} && !ObjectIntact(cfg, u.w, slot, sum))
      && (u.end.Stored? ==> (ObjectIntact(cfg, u.w, slot, sum) <==> u.w.faults == {}))
    decreases tries
  {
    if tries > 0 {
      TryOutcome(cfg, w, slot, sum);
      var r := Try(cfg, w, slot, sum);
      if r.Again? { UploadOutcome(cfg, r.w, slot, sum, tries - 1, r.err); }
    }
  }

  /** A replication that succeeds has stored an intact object if and only if it raised no fault. */
  lemma ReplicateDeliversExact(cfg: Config, w: World, meta: Meta, backend: string, prefix: string)
    requires w.faults == {} && OwnTags(w, meta.checksum)
    ensures var r := Replicate(cfg, w, meta, backend, prefix);
      r.s.Done? ==> (ObjectIntact(cfg, r.w, Slot(backend, Name(prefix, meta.path.base)), meta.checksum) <==> r.w.faults == {})
  {
    var m1 := Marked(meta, backend, prefix);
    SendDeliversExact(cfg, IndexPut(w, m1).w, m1, backend, prefix);
  }

  lemma SendDeliversExact(cfg: Config, w: World, m1: Meta, backend: string, prefix: string)
    requires w.faults == {} && OwnTags(w, m1.checksum)
    requires exists i :: 0 <= i < |m1.locators| && m1.locators[i].backend == backend
    ensures var r := Send(cfg, w, m1, backend, prefix);
      r.s.Done? ==> (ObjectIntact(cfg, r.w, Slot(backend, Name(prefix, m1.path.base)), m1.checksum) <==> r.w.faults == {})
  {
    UploadOutcome(cfg, Probe(w).w, Slot(backend, Name(prefix, m1.path.base)), m1.checksum, 3, false);
  }

  ghost predicate Dropped(items: seq<Meta>, p: Name) {
    exists i :: 0 <= i < |items| && HasHealthy(items[i].locators) && items[i].path == p
  }

  lemma DroppedFirst(items: seq<Meta>, p: Name)
    requires items != []
    ensures Dropped(items, p) <==> (HasHealthy(items[0].locators) && items[0].path == p) || Dropped(items[1..], p)
  {
    if Dropped(items[1..], p) {
      var i :| 0 <= i < |items[1..]| && HasHealthy(items[1..][i].locators) && items[1..][i].path == p;
      assert items[i + 1].path == p;
    }
    if Dropped(items, p) && !(HasHealthy(items[0].locators) && items[0].path == p) {
      var i :| 0 <= i < |items| && HasHealthy(items[i].locators) && items[i].path == p;
      assert items[1..][i - 1].path == p;
    }
  }

  lemma RetainOneDelivers(w: World, meta: Meta, p: Name)
    requires RetainOne(w, meta).s.Done?
    ensures p in RetainOne(w, meta).w.files <==> p in w.files && !(HasHealthy(meta.locators) && meta.path == p)
  {
  }

  /** Retention that returns without error has removed the local file of every record with a healthy replica,
      and no other file. */
  lemma {:induction false} RetainDelivers(w: World, items: seq<Meta>, p: Name)
    requires Retain(w, items).s.Done?
    ensures p in Retain(w, items).w.files <==> p in w.files && !Dropped(items, p)
    decreases |items|
  {
    if items != [] {
      RetainOneDelivers(w, items[0], p);
      RetainDelivers(RetainOne(w, items[0]).w, items[1..], p);
      DroppedFirst(items, p);
    }
  }

  // ---- a check is exact ----

  ghost predicate ExactAt(cfg: Config, w: World, m: Meta, i: nat)
    requires i < |m.locators|
  {
    m.locators[i].healthy <==> ObjectIntact(cfg, w, SlotOf(m.locators[i]), m.checksum)
  }

  /** A step of Check for locator i, seen by the other locators. */
  ghost predicate StepAt(w: World, w': World, m: Meta, m': Meta, i: nat)
    requires i < |m.locators|
  {
    && |m'.locators| == |m.locators| && m'.path == m.path && m'.checksum == m.checksum
    && (forall k :: 0 <= k < |m.locators| ==> SlotOf(m'.locators[k]) == SlotOf(m.locators[k]))
    && (forall k :: 0 <= k < |m.locators| && k != i ==> m'.locators[k] == m.locators[k])
    && (forall s :: s != SlotOf(m.locators[i]) ==> SameAt(w.objects, w'.objects, s))
  }

  lemma ConcludedExact(cfg: Config, w: World, meta: Meta, i: nat, save: Meta)
    requires i < |meta.locators| && meta.checksum == save.checksum
    ensures var r := Concluded(ChecksumFromStorage(cfg, w, SlotOf(meta.locators[i]), meta.checksum, SaveFor(save)), meta, i);
      StepAt(w, r.w, meta, r.meta, i) && (r.s.Done? && r.w.faults == {} ==> ExactAt(cfg, r.w, r.meta, i))
  {
    VerifyFacts(cfg, w, SlotOf(meta.locators[i]), meta.checksum, SaveFor(save));
  }

  lemma CheckOneExact(cfg: Config, w: World, meta: Meta, i: nat, force: bool)
    requires SafeFor(cfg, w, meta.id) && MetaOk(cfg, w, meta) && Ready(cfg, w, meta)
    requires i < |meta.locators| && (force || !meta.locators[i].healthy)
    requires meta.locators[i].backend in cfg.registered
    ensures var r := CheckOne(cfg, w, meta, i, force);
      r.w.faults == {} ==> StepAt(w, r.w, meta, r.meta, i) && (r.s.Done? ==> ExactAt(cfg, r.w, r.meta, i))
  {
    var l := meta.locators[i];
    var v := ChecksumFromStorage(cfg, w, SlotOf(l), meta.checksum, SaveFor(meta));
    VerifyKeeps(cfg, w, SlotOf(l), meta);
    if meta.healthy && v.v.Unhealthy? {
      RepairGrows(cfg, v.w, meta, i);
      if CheckOne(cfg, w, meta, i, force).w.faults == {} { RepairExact(cfg, v.w, meta, i); }
    } else {
      ConcludedExact(cfg, w, meta, i, meta);
    }
  }

  lemma RepairExact(cfg: Config, w: World, meta: Meta, i: nat)
    requires SafeFor(cfg, w, meta.id) && MetaOk(cfg, w, meta) && i < |meta.locators|
    ensures var r := Repair(cfg, w, meta, i);
      StepAt(w, r.w, meta, r.meta, i) && (r.s.Done? && r.w.faults == {} ==> ExactAt(cfg, r.w, r.meta, i))
  {
    var l := meta.locators[i];
    var r := Replicate(cfg, w, meta, l.backend, l.key.dir);
    ReplicateKeeps(cfg, w, meta, l.backend, l.key.dir);
    assert l.key == Name(l.key.dir, meta.path.base);
    forall k | 0 <= k < |meta.locators|
      ensures |r.meta.locators| == |meta.locators| && SlotOf(r.meta.locators[k]) == SlotOf(meta.locators[k])
      ensures k != i ==> r.meta.locators[k] == meta.locators[k]
    {
      ReplicateShape(cfg, w, meta, l.backend, l.key.dir, k);
      ReplicateLength(cfg, w, meta, l.backend, l.key.dir, i);
    }
    ReplicateShape(cfg, w, meta, l.backend, l.key.dir, i);
    assert StepAt(w, r.w, meta, r.meta, i);
    if !r.s.Crashed? {
      ConcludedExact(cfg, r.w, r.meta, i, meta);
      StepTrans(w, r.w, Repair(cfg, w, meta, i).w, meta, r.meta, Repair(cfg, w, meta, i).meta, i);
    }
  }

  lemma ReplicateLength(cfg: Config, w: World, meta: Meta, backend: string, prefix: string, i: nat)
    requires i < |meta.locators| && meta.locators[i].backend == backend
    ensures |Replicate(cfg, w, meta, backend, prefix).meta.locators| == |meta.locators|
  {
    var m1 := Marked(meta, backend, prefix);
    assert |m1.locators| == |meta.locators|;
  }

  lemma StepTrans(w0: World, w1: World, w2: World, m0: Meta, m1: Meta, m2: Meta, i: nat)
    requires i < |m0.locators| && StepAt(w0, w1, m0, m1, i) && StepAt(w1, w2, m1, m2, i)
    ensures StepAt(w0, w2, m0, m2, i)
  {
    forall s | s != SlotOf(m0.locators[i]) ensures SameAt(w0.objects, w2.objects, s) {
      assert SameAt(w0.objects, w1.objects, s) && SameAt(w1.objects, w2.objects, s);
    }
  }

  lemma ExactSurvives(cfg: Config, w: World, w': World, m: Meta, m': Meta, i: nat, k: nat)
    requires i < |m.locators| && k < |m.locators| && k != i && DistinctBackends(m)
    requires StepAt(w, w', m, m', i) && ExactAt(cfg, w, m, k)
    ensures ExactAt(cfg, w', m', k)
  {
    assert m.locators[k].backend != m.locators[i].backend;
    assert SameAt(w.objects, w'.objects, SlotOf(m.locators[k]));
  }

  /** What the loop of a check that started from m0 knows before locator i. */
  ghost predicate Swept(cfg: Config, w: World, m0: Meta, m: Meta, i: nat) {
    && SafeFor(cfg, w, m.id) && MetaOk(cfg, w, m) && Ready(cfg, w, m)
    && i <= |m.locators| == |m0.locators|
    && (forall k :: 0 <= k < |m.locators| ==> SlotOf(m.locators[k]) == SlotOf(m0.locators[k]))
    && (forall k :: 0 <= k < |m.locators| && (k >= i || m.locators[k].backend !in cfg.registered) ==>
          m.locators[k] == m0.locators[k])
    && (forall k :: 0 <= k < i && m.locators[k].backend in cfg.registered ==> ExactAt(cfg, w, m, k))
  }

  lemma SweepOne(cfg: Config, w: World, m0: Meta, meta: Meta, i: nat, force: bool)
    requires Swept(cfg, w, m0, meta, i) && i < |meta.locators|
    ensures var r := CheckOne(cfg, w, meta, i, force);
      r.s.Done? && r.w.faults == {} ==> Swept(cfg, r.w, m0, r.meta, i + 1)
  {
    var r := CheckOne(cfg, w, meta, i, force);
    if (!meta.locators[i].healthy || force) && meta.locators[i].backend in cfg.registered && r.s.Done? && r.w.faults == {} {
      CheckOneKeeps(cfg, w, meta, i, force);
      CheckOneGrows(cfg, w, meta, i, force);
      CheckOneExact(cfg, w, meta, i, force);
      forall k | 0 <= k < i && r.meta.locators[k].backend in cfg.registered ensures ExactAt(cfg, r.w, r.meta, k) {
        ExactSurvives(cfg, w, r.w, meta, r.meta, i, k);
      }
    }
  }

  lemma {:induction false} CheckFromExact(cfg: Config, w: World, m0: Meta, meta: Meta, i: nat, force: bool)
    requires Swept(cfg, w, m0, meta, i)
    ensures var r := CheckFrom(cfg, w, meta, i, |meta.locators|, force);
      r.s.Done? && r.w.faults == {} ==> Swept(cfg, r.w, m0, r.meta, |r.meta.locators|)
    decreases |meta.locators| - i
  {
    var n := |meta.locators|;
    var all := CheckFrom(cfg, w, meta, i, n, force);
    if i < n && all.s.Done? && all.w.faults == {} {
      var r := CheckOne(cfg, w, meta, i, force);
      CheckFromKeeps(cfg, r.w, r.meta, i + 1, n, force);
      SweepOne(cfg, w, m0, meta, i, force);
      CheckFromExact(cfg, r.w, m0, r.meta, i + 1, force);
    }
  }

  /** After a check, forced or not, that returns without error or fault, each replica on a registered backend is recorded
      healthy exactly when its object is intact; records of other backends are as before. */
  lemma CheckExact(cfg: Config, w: World, id: int, force: bool)
    requires Safe(cfg, w) && id in w.index
    ensures var r := Check(cfg, w, id, force);
      r.s.Done? && r.w.faults == {} ==>
        && id in r.w.index && |r.w.index[id].locators| == |w.index[id].locators|
        && forall k :: 0 <= k < |w.index[id].locators| ==>
             && SlotOf(r.w.index[id].locators[k]) == SlotOf(w.index[id].locators[k])
             && if w.index[id].locators[k].backend in cfg.registered then ExactAt(cfg, r.w, r.w.index[id], k)
                else r.w.index[id].locators[k] == w.index[id].locators[k]
  {
    var r := Check(cfg, w, id, force);
    if r.s.Done? && r.w.faults == {} {
      var m0 := w.index[id];
      assert SafeFor(cfg, w, id);
      var local := ChecksumFromFile(cfg, Probe(w).w, m0.path, m0.checksum);
      var m1 := m0.(healthy := local.v.Healthy?);
      LocalRead(cfg, w, id);
      CheckFromExact(cfg, local.w, m0, m1, 0, force);
      CheckFromKeeps(cfg, local.w, m1, 0, |m1.locators|, force);
      var done := CheckFrom(cfg, local.w, m1, 0, |m1.locators|, force);
      assert r == IndexPut(done.w, done.meta);
      ExactInIndex(cfg, done.w, done.meta);
    }
  }

  /** Having looked at the local file, a check is ready for its loop. */
  lemma LocalRead(cfg: Config, w: World, id: int)
    requires SafeFor(cfg, w, id) && id in w.index
    ensures var m0 := w.index[id];
      var local := ChecksumFromFile(cfg, Probe(w).w, m0.path, m0.checksum);
      var m1 := m0.(healthy := local.v.Healthy?);
      local.v.Healthy? || local.v.Unhealthy? ==> Swept(cfg, local.w, m0, m1, 0)
  {
    var m0 := w.index[id];
    ProbeKeeps(cfg, w, id, m0);
    ProbeKeeps(cfg, Probe(w).w, id, m0);
  }

  lemma ExactInIndex(cfg: Config, w: World, m: Meta)
    requires IndexPut(w, m).s.Done?
    ensures var w1 := IndexPut(w, m).w;
      && m.id in w1.index && w1.index[m.id] == m
      && forall k :: 0 <= k < |m.locators| && ExactAt(cfg, w, m, k) ==> ExactAt(cfg, w1, m, k)
  {
  }
}
