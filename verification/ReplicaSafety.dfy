/** Copy safety and truthful records over every run of the archive helper that raises no fault. */
module ReplicaSafety {
  import opened ReplicaModel

  /** Every locator recorded healthy names an object whose bytes hash to the recorded checksum. */
  ghost predicate Truthful(cfg: Config, w: World, m: Meta) {
    forall i :: 0 <= i < |m.locators| && m.locators[i].healthy ==> ObjectIntact(cfg, w, SlotOf(m.locators[i]), m.checksum)
  }

  ghost predicate DistinctBackends(m: Meta) {
    forall i, j :: 0 <= i < j < |m.locators| ==> m.locators[i].backend != m.locators[j].backend
  }

  ghost predicate KeysOwned(cfg: Config, m: Meta) {
    forall i :: 0 <= i < |m.locators| ==> cfg.owner(m.locators[i].key.base) == m.id
  }

  /** The recorded keys end in the name of the file. */
  ghost predicate KeysFollowPath(m: Meta) {
    forall i :: 0 <= i < |m.locators| ==> m.locators[i].key.base == m.path.base
  }

  ghost predicate MetaOk(cfg: Config, w: World, m: Meta) {
    && Truthful(cfg, w, m)
    && DistinctBackends(m)
    && KeysOwned(cfg, m)
    && KeysFollowPath(m)
    && m.id in w.packed && w.packed[m.id] == Copy(m.path, m.checksum)
  }

  ghost predicate HasObject(cfg: Config, w: World, id: int, sum: Checksum) {
    exists slot :: slot in w.objects && cfg.owner(slot.key.base) == id && ObjectIntact(cfg, w, slot, sum)
  }

  /** The id still has an intact copy: its local file, or an object that belongs to it. */
  ghost predicate HasCopy(cfg: Config, w: World, id: int)
    requires id in w.packed
  {
    FileIntact(cfg, w, w.packed[id].path, w.packed[id].checksum) || HasObject(cfg, w, id, w.packed[id].checksum)
  }

  /** The local file of the id is intact or absent. */
  ghost predicate LocalClean(cfg: Config, w: World, id: int)
    requires id in w.packed
  {
    w.packed[id].path in w.files ==> FileIntact(cfg, w, w.packed[id].path, w.packed[id].checksum)
  }

  ghost predicate SafeFor(cfg: Config, w: World, id: int) {
    && (id in w.index ==> w.index[id].id == id && MetaOk(cfg, w, w.index[id]))
    && (id in w.packed ==> cfg.owner(w.packed[id].path.base) == id && LocalClean(cfg, w, id) && HasCopy(cfg, w, id))
  }

  ghost predicate Safe(cfg: Config, w: World) {
    forall id :: SafeFor(cfg, w, id)
  }

  // ---- frames: a step for one id touches nothing that belongs to another ----

  ghost predicate Only(cfg: Config, w: World, w': World, id: int) {
    && w.faults <= w'.faults
    && (forall p: Name :: cfg.owner(p.base) != id ==> SameAt(w.files, w'.files, p))
    && (forall s: Slot :: cfg.owner(s.key.base) != id ==> SameAt(w.objects, w'.objects, s))
    && (forall j :: j != id ==> SameAt(w.index, w'.index, j))
    && (forall j :: j != id ==> SameAt(w.packed, w'.packed, j))
  }

  predicate SameAt<K, V(==)>(m: map<K, V>, m': map<K, V>, k: K) {
    (k in m <==> k in m') && (k in m ==> m[k] == m'[k])
  }

  lemma FrameMeta(cfg: Config, w: World, w': World, id: int, m: Meta)
    requires Only(cfg, w, w', id) && m.id != id && MetaOk(cfg, w, m)
    ensures MetaOk(cfg, w', m)
  {
    assert SameAt(w.packed, w'.packed, m.id);
    forall i | 0 <= i < |m.locators| && m.locators[i].healthy
      ensures ObjectIntact(cfg, w', SlotOf(m.locators[i]), m.checksum)
    {
      assert SameAt(w.objects, w'.objects, SlotOf(m.locators[i]));
    }
  }

  lemma FrameSafe(cfg: Config, w: World, w': World, id: int, j: int)
    requires Only(cfg, w, w', id) && j != id && SafeFor(cfg, w, j)
    ensures SafeFor(cfg, w', j)
  {
    assert SameAt(w.index, w'.index, j) && SameAt(w.packed, w'.packed, j);
    if j in w.index {
      FrameMeta(cfg, w, w', id, w.index[j]);
    }
    if j in w.packed {
      var c := w.packed[j];
      assert SameAt(w.files, w'.files, c.path);
      if HasObject(cfg, w, j, c.checksum) {
        var slot :| slot in w.objects && cfg.owner(slot.key.base) == j && ObjectIntact(cfg, w, slot, c.checksum);
        assert SameAt(w.objects, w'.objects, slot);
      }
    }
  }

  lemma FrameAll(cfg: Config, w: World, w': World, id: int)
    requires Safe(cfg, w) && Only(cfg, w, w', id) && SafeFor(cfg, w', id)
    ensures Safe(cfg, w')
  {
    forall j ensures SafeFor(cfg, w', j) {
      if j != id { FrameSafe(cfg, w, w', id, j); }
    }
  }

  lemma OnlyTrans(cfg: Config, w0: World, w1: World, w2: World, id: int)
    requires Only(cfg, w0, w1, id) && Only(cfg, w1, w2, id)
    ensures Only(cfg, w0, w2, id)
  {
    forall p: Name | cfg.owner(p.base) != id ensures SameAt(w0.files, w2.files, p) {
      assert SameAt(w0.files, w1.files, p) && SameAt(w1.files, w2.files, p);
    }
    forall s: Slot | cfg.owner(s.key.base) != id ensures SameAt(w0.objects, w2.objects, s) {
      assert SameAt(w0.objects, w1.objects, s) && SameAt(w1.objects, w2.objects, s);
    }
    forall j | j != id ensures SameAt(w0.index, w2.index, j) && SameAt(w0.packed, w2.packed, j) {
      assert SameAt(w0.index, w1.index, j) && SameAt(w1.index, w2.index, j);
      assert SameAt(w0.packed, w1.packed, j) && SameAt(w1.packed, w2.packed, j);
    }
  }

  // ---- verifying an object ----

  /** Only the given object and the given local path differ. */
  ghost predicate Touches(w: World, w': World, slot: Slot, save: SavePath) {
    && w.faults <= w'.faults
    && w'.index == w.index
    && w'.packed == w.packed
    && (forall s :: s != slot ==> SameAt(w.objects, w'.objects, s))
    && (forall p :: save != At(p) ==> SameAt(w.files, w'.files, p))
  }

  lemma TouchesTrans(w0: World, w1: World, w2: World, slot: Slot, save: SavePath)
    requires Touches(w0, w1, slot, save) && Touches(w1, w2, slot, save)
    ensures Touches(w0, w2, slot, save)
  {
    forall s | s != slot ensures SameAt(w0.objects, w2.objects, s) {
      assert SameAt(w0.objects, w1.objects, s) && SameAt(w1.objects, w2.objects, s);
    }
    forall p | save != At(p) ensures SameAt(w0.files, w2.files, p) {
      assert SameAt(w0.files, w1.files, p) && SameAt(w1.files, w2.files, p);
    }
  }

  lemma DownloadFacts(cfg: Config, w: World, slot: Slot, bytes: Bytes, save: SavePath, sum: Checksum)
    ensures var d := Download(cfg, w, bytes, save, sum);
      && Touches(w, d.w, slot, save) && d.w.objects == w.objects
      && (save.Nowhere? ==> d.w.files == w.files && d.w.faults == w.faults)
      && (save.At? && d.w.faults == {} && save.path in d.w.files ==> FileIntact(cfg, d.w, save.path, sum))
  {
    if save.At? {
      var d, e := Download(cfg, w, bytes, save, sum).w, Peek(w);
      forall p | p != save.path ensures SameAt(w.files, d.files, p) {
        WrittenElsewhere(w.files, save.path, if e.ok && !e.dies then bytes else e.bytes, e.left, p);
      }
    }
  }

  lemma WrittenElsewhere<K, V>(m: map<K, V>, k: K, v: V, left: Left, j: K)
    requires j != k
    ensures SameAt(m, Written(m, k, v, left), j)
  {
  }

  lemma RePutFacts(cfg: Config, w: World, slot: Slot, sum: Checksum)
    requires ObjectIntact(cfg, w, slot, sum)
    ensures var v := RePut(cfg, w, slot, sum);
      && Touches(w, v.w, slot, Nowhere) && v.w.files == w.files
      && (v.w.faults == {} ==> ObjectIntact(cfg, v.w, slot, sum))
      && (v.v.Healthy? || v.v.Died?)
  {
    if slot.backend in cfg.canRePut {
      var v, e := RePut(cfg, w, slot, sum).w, Peek(w);
      forall s | s != slot ensures SameAt(w.objects, v.objects, s) {
        WrittenElsewhere(w.objects, slot, Obj(e.bytes, e.tag), LeftOf(e), s);
      }
    }
  }

  /** A verification reports what the object was, and without a fault it keeps an intact object intact. */
  ghost predicate Verifies(cfg: Config, w: World, slot: Slot, sum: Checksum, save: SavePath, v: Verified) {
    && Touches(w, v.w, slot, save)
    && (save.Nowhere? ==> v.w.files == w.files)
    && (v.v.Healthy? ==> ObjectIntact(cfg, w, slot, sum))
    && (v.v.Unhealthy? ==> !ObjectIntact(cfg, w, slot, sum))
    && (v.w.faults == {} && ObjectIntact(cfg, w, slot, sum) ==> ObjectIntact(cfg, v.w, slot, sum))
    && (!ObjectIntact(cfg, w, slot, sum) ==> v.w.objects == w.objects)
    && (save.At? && v.w.faults == {} && save.path in v.w.files ==>
          FileIntact(cfg, v.w, save.path, sum) || (save.path in w.files && v.w.files[save.path] == w.files[save.path]))
  }

  /** The object is downloaded, unless its tag is enough. */
  ghost predicate Reads(cfg: Config, w: World, slot: Slot, sum: Checksum, save: SavePath) {
    Probe(w).s.Done? && slot in w.objects && !(TagMatches(cfg, w.objects[slot], sum) && save.Nowhere?)
  }

  lemma VerifyRead(cfg: Config, w: World, slot: Slot, sum: Checksum, save: SavePath)
    requires Reads(cfg, w, slot, sum, save)
    ensures Verifies(cfg, w, slot, sum, save, ChecksumFromStorage(cfg, w, slot, sum, save))
  {
    var st, o := Probe(w), w.objects[slot];
    var d := Download(cfg, st.w, o.bytes, save, sum);
    DownloadFacts(cfg, st.w, slot, o.bytes, save, sum);
    assert Touches(w, st.w, slot, save);
    TouchesTrans(w, st.w, d.w, slot, save);
    if d.s.Done? && Intact(cfg, o.bytes, sum) { VerifyAgain(cfg, w, d.w, slot, sum, save); }
  }

  /** What the rewriting after a good download adds. */
  lemma VerifyAgain(cfg: Config, w: World, w1: World, slot: Slot, sum: Checksum, save: SavePath)
    requires Touches(w, w1, slot, save) && w1.objects == w.objects && ObjectIntact(cfg, w, slot, sum)
    ensures var v := RePut(cfg, w1, slot, sum);
      && Touches(w, v.w, slot, save) && v.w.files == w1.files && w1.faults <= v.w.faults
      && (v.w.faults == {} ==> ObjectIntact(cfg, v.w, slot, sum))
      && (v.v.Healthy? || v.v.Died?)
  {
    RePutFacts(cfg, w1, slot, sum);
    var v := RePut(cfg, w1, slot, sum);
    assert Touches(w1, v.w, slot, save);
    TouchesTrans(w, w1, v.w, slot, save);
  }

  lemma VerifyFacts(cfg: Config, w: World, slot: Slot, sum: Checksum, save: SavePath)
    ensures Verifies(cfg, w, slot, sum, save, ChecksumFromStorage(cfg, w, slot, sum, save))
  {
    if Reads(cfg, w, slot, sum, save) {
      VerifyRead(cfg, w, slot, sum, save);
    } else {
      assert Touches(w, Probe(w).w, slot, save);
    }
  }

  lemma TouchesOnly(cfg: Config, w: World, w': World, slot: Slot, save: SavePath, id: int)
    requires Touches(w, w', slot, save) && cfg.owner(slot.key.base) == id
    requires save.At? ==> cfg.owner(save.path.base) == id
    ensures Only(cfg, w, w', id)
  {
  }

  // ---- uploading ----

  lemma PutTouches(w: World, slot: Slot)
    ensures var put := BackendPut(Probe(w).w, slot).w; Touches(w, put, slot, Nowhere) && put.files == w.files
  {
    var w1 := Probe(w).w;
    var e := Peek(w1);
    forall s | s != slot ensures SameAt(w.objects, BackendPut(w1, slot).w.objects, s) {
      WrittenElsewhere(w1.objects, slot, Obj(e.bytes, e.tag), LeftOf(e), s);
    }
  }

  lemma TryFacts(cfg: Config, w: World, slot: Slot, sum: Checksum)
    ensures var r := Try(cfg, w, slot, sum);
      && Touches(w, r.w, slot, Nowhere)
      && r.w.files == w.files
      && (r.Stop? && r.w.faults == {} && r.end.Stored? ==> ObjectIntact(cfg, r.w, slot, sum))
  {
    var p := BackendPut(Probe(w).w, slot);
    PutTouches(w, slot);
    if Probe(w).s.Done? && p.s.Done? {
      VerifyFacts(cfg, p.w, slot, sum, Nowhere);
      TouchesTrans(w, p.w, ChecksumFromStorage(cfg, p.w, slot, sum, Nowhere).w, slot, Nowhere);
    }
  }

  lemma {:induction false} UploadFacts(cfg: Config, w: World, slot: Slot, sum: Checksum, tries: nat, err: bool)
    ensures var u := Upload(cfg, w, slot, sum, tries, err);
      && Touches(w, u.w, slot, Nowhere)
      && u.w.files == w.files
      && (u.w.faults == {} && u.end.Stored? ==> ObjectIntact(cfg, u.w, slot, sum))
    decreases tries
  {
    if tries > 0 {
      TryFacts(cfg, w, slot, sum);
      var r := Try(cfg, w, slot, sum);
      if r.Again? {
        UploadFacts(cfg, r.w, slot, sum, tries - 1, r.err);
        TouchesTrans(w, r.w, Upload(cfg, r.w, slot, sum, tries - 1, r.err).w, slot, Nowhere);
      }
    }
  }

  // ---- replicate ----

  /** Rewriting one object keeps a record whose healthy locators all name other objects. */
  lemma TouchKeepsMeta(cfg: Config, w: World, w': World, slot: Slot, save: SavePath, m: Meta)
    requires Touches(w, w', slot, save) && MetaOk(cfg, w, m)
    requires forall i :: 0 <= i < |m.locators| && m.locators[i].healthy ==>
      SlotOf(m.locators[i]) != slot || ObjectIntact(cfg, w', slot, m.checksum)
    ensures MetaOk(cfg, w', m)
  {
    forall i | 0 <= i < |m.locators| && m.locators[i].healthy
      ensures ObjectIntact(cfg, w', SlotOf(m.locators[i]), m.checksum)
    {
      if SlotOf(m.locators[i]) != slot {
        assert SameAt(w.objects, w'.objects, SlotOf(m.locators[i]));
      }
    }
  }

  lemma MarkedOk(cfg: Config, w: World, meta: Meta, backend: string, prefix: string)
    requires MetaOk(cfg, w, meta) && cfg.owner(meta.path.base) == meta.id
    ensures MetaOk(cfg, w, Marked(meta, backend, prefix))
    ensures var m1 := Marked(meta, backend, prefix);
      && |meta.locators| <= |m1.locators|
      && (forall i :: 0 <= i < |m1.locators| && m1.locators[i].healthy ==> m1.locators[i].backend != backend)
      && (forall i :: 0 <= i < |meta.locators| && meta.locators[i].backend != backend ==> m1.locators[i] == meta.locators[i])
      && (forall i :: 0 <= i < |meta.locators| && meta.locators[i].backend == backend ==>
            |m1.locators| == |meta.locators| && m1.locators[i] == Pending(meta, backend, prefix))
  {
  }

  lemma PutKeepsSafe(cfg: Config, w: World, m: Meta)
    requires SafeFor(cfg, w, m.id) && MetaOk(cfg, w, m)
    ensures var put := IndexPut(w, m);
      && Only(cfg, w, put.w, m.id) && SafeFor(cfg, put.w, m.id) && MetaOk(cfg, put.w, m)
      && put.w.files == w.files && put.w.objects == w.objects && put.w.packed == w.packed && put.w.faults == w.faults
      && (put.s.Done? ==> m.id in put.w.index && put.w.index[m.id] == m)
      && (m.id in put.w.index ==> put.w.index[m.id] == m || (m.id in w.index && put.w.index[m.id] == w.index[m.id]))
  {
    var put := IndexPut(w, m);
    if HasObject(cfg, w, m.id, w.packed[m.id].checksum) { SameObject(cfg, w, put.w, m.id, w.packed[m.id].checksum); }
    forall j | j != m.id ensures SameAt(w.index, put.w.index, j) {
      WrittenElsewhere(w.index, m.id, m, LeftOf(Peek(w)), j);
    }
  }

  lemma SameObject(cfg: Config, w: World, w': World, id: int, sum: Checksum)
    requires w'.objects == w.objects && HasObject(cfg, w, id, sum)
    ensures HasObject(cfg, w', id, sum)
  {
    var slot :| slot in w.objects && cfg.owner(slot.key.base) == id && ObjectIntact(cfg, w, slot, sum);
    assert slot in w'.objects && ObjectIntact(cfg, w', slot, sum);
  }

  lemma ProbeKeeps(cfg: Config, w: World, id: int, m: Meta)
    ensures var p := Probe(w);
      && Only(cfg, w, p.w, id)
      && (SafeFor(cfg, w, id) ==> SafeFor(cfg, p.w, id))
      && (MetaOk(cfg, w, m) ==> MetaOk(cfg, p.w, m))
      && p.w.files == w.files && p.w.objects == w.objects && p.w.index == w.index
      && p.w.packed == w.packed && p.w.faults == w.faults
  {
    var p := Probe(w);
    if id in w.packed && HasObject(cfg, w, id, w.packed[id].checksum) {
      var slot :| slot in w.objects && cfg.owner(slot.key.base) == id && ObjectIntact(cfg, w, slot, w.packed[id].checksum);
      assert slot in p.w.objects && ObjectIntact(cfg, p.w, slot, w.packed[id].checksum);
    }
  }

  /** The upload loop runs only beside an intact local file, under a record that calls the slot unhealthy. */
  lemma UploadKeeps(cfg: Config, w: World, m1: Meta, backend: string, prefix: string)
    requires SafeFor(cfg, w, m1.id) && MetaOk(cfg, w, m1) && m1.path in w.files
    requires m1.id in w.index && w.index[m1.id] == m1
    requires forall i :: 0 <= i < |m1.locators| && m1.locators[i].healthy ==> m1.locators[i].backend != backend
    ensures var slot := Slot(backend, Name(prefix, m1.path.base));
      var up := Upload(cfg, w, slot, m1.checksum, 3, false);
      && Only(cfg, w, up.w, m1.id) && Touches(w, up.w, slot, Nowhere) && up.w.files == w.files
      && SafeFor(cfg, up.w, m1.id) && MetaOk(cfg, up.w, m1)
      && (up.w.faults == {} && up.end.Stored? ==> ObjectIntact(cfg, up.w, slot, m1.checksum))
  {
    var slot := Slot(backend, Name(prefix, m1.path.base));
    var up := Upload(cfg, w, slot, m1.checksum, 3, false);
    UploadFacts(cfg, w, slot, m1.checksum, 3, false);
    TouchesOnly(cfg, w, up.w, slot, Nowhere, m1.id);
    TouchKeepsMeta(cfg, w, up.w, slot, Nowhere, m1);
  }

  lemma ConfirmedOk(cfg: Config, w: World, m1: Meta, backend: string, prefix: string)
    requires MetaOk(cfg, w, m1) && cfg.owner(m1.path.base) == m1.id
    requires exists i :: 0 <= i < |m1.locators| && m1.locators[i].backend == backend
    requires ObjectIntact(cfg, w, Slot(backend, Name(prefix, m1.path.base)), m1.checksum)
    ensures MetaOk(cfg, w, Confirmed(m1, backend, prefix))
  {
  }

  /** Recording the replica healthy is truthful when the upload loop did not run out on a mismatch. */
  lemma ConfirmKeeps(cfg: Config, w: World, m1: Meta, backend: string, prefix: string, blind: bool)
    requires SafeFor(cfg, w, m1.id) && MetaOk(cfg, w, m1) && cfg.owner(m1.path.base) == m1.id
    requires exists i :: 0 <= i < |m1.locators| && m1.locators[i].backend == backend
    requires !blind && w.faults == {} ==> ObjectIntact(cfg, w, Slot(backend, Name(prefix, m1.path.base)), m1.checksum)
    ensures var m2 := Confirmed(m1, backend, prefix);
      var fin := IndexPut(Flag(w, Blind, blind), m2);
      && Only(cfg, w, fin.w, m1.id)
      && fin.w.files == w.files && fin.w.objects == w.objects && fin.w.packed == w.packed
      && (fin.w.faults == {} ==> SafeFor(cfg, fin.w, m1.id) && MetaOk(cfg, fin.w, m2))
  {
    if !blind && w.faults == {} {
      ConfirmedOk(cfg, w, m1, backend, prefix);
      PutKeepsSafe(cfg, w, Confirmed(m1, backend, prefix));
    }
  }

  /** What a call of replicate for one record touches, and the safety it keeps. */
  ghost predicate Replicates(cfg: Config, w: World, id: int, slot: Slot, r: Replication) {
    && Only(cfg, w, r.w, id)
    && r.w.files == w.files
    && r.w.packed == w.packed
    && (forall s :: s != slot ==> SameAt(w.objects, r.w.objects, s))
    && (r.w.faults == {} ==> SafeFor(cfg, r.w, id) && MetaOk(cfg, r.w, r.meta))
  }

  lemma SendKeeps(cfg: Config, w: World, m1: Meta, backend: string, prefix: string)
    requires SafeFor(cfg, w, m1.id) && MetaOk(cfg, w, m1)
    requires m1.id in w.index && w.index[m1.id] == m1
    requires forall i :: 0 <= i < |m1.locators| && m1.locators[i].healthy ==> m1.locators[i].backend != backend
    requires exists i :: 0 <= i < |m1.locators| && m1.locators[i].backend == backend
    ensures Replicates(cfg, w, m1.id, Slot(backend, Name(prefix, m1.path.base)), Send(cfg, w, m1, backend, prefix))
  {
    var r := Send(cfg, w, m1, backend, prefix);
    var open := Probe(w);
    ProbeKeeps(cfg, w, m1.id, m1);
    if m1.path in w.files && open.s.Done? {
      UploadKeeps(cfg, open.w, m1, backend, prefix);
      var up := Upload(cfg, open.w, Slot(backend, Name(prefix, m1.path.base)), m1.checksum, 3, false);
      OnlyTrans(cfg, w, open.w, up.w, m1.id);
      if up.end.Stored? || up.end.Unverified? {
        ConfirmKeeps(cfg, up.w, m1, backend, prefix, up.end.Unverified?);
        OnlyTrans(cfg, w, up.w, r.w, m1.id);
      }
    }
  }

  lemma ReplicateKeeps(cfg: Config, w: World, meta: Meta, backend: string, prefix: string)
    requires SafeFor(cfg, w, meta.id) && MetaOk(cfg, w, meta)
    ensures Replicates(cfg, w, meta.id, Slot(backend, Name(prefix, meta.path.base)), Replicate(cfg, w, meta, backend, prefix))
  {
    if ValidMeta(meta) && ValidBase(meta.path.base) {
      var m1 := Marked(meta, backend, prefix);
      MarkedOk(cfg, w, meta, backend, prefix);
      PutKeepsSafe(cfg, w, m1);
      var put := IndexPut(w, m1);
      if put.s.Done? {
        SendKeeps(cfg, put.w, m1, backend, prefix);
        OnlyTrans(cfg, w, put.w, Send(cfg, put.w, m1, backend, prefix).w, meta.id);
      }
    }
  }

  /** What sending leaves in memory. */
  lemma SendMeta(cfg: Config, w: World, m1: Meta, backend: string, prefix: string)
    requires exists i :: 0 <= i < |m1.locators| && m1.locators[i].backend == backend
    ensures var m := Send(cfg, w, m1, backend, prefix).meta; m == m1 || m == Confirmed(m1, backend, prefix)
  {
  }

  lemma ReplicateMeta(cfg: Config, w: World, meta: Meta, backend: string, prefix: string)
    ensures var m, m1 := Replicate(cfg, w, meta, backend, prefix).meta, Marked(meta, backend, prefix);
      m == meta || m == m1 || m == Confirmed(m1, backend, prefix)
  {
    var m1 := Marked(meta, backend, prefix);
    SendMeta(cfg, IndexPut(w, m1).w, m1, backend, prefix);
  }

  /** Only the locator of the backend differs, and then its key is the new one. */
  ghost predicate SameBut(meta: Meta, m: Meta, backend: string, key: Name, i: nat)
    requires i < |meta.locators|
  {
    && m.(locators := []) == meta.(locators := [])
    && i < |m.locators| && m.locators[i].backend == meta.locators[i].backend
    && (meta.locators[i].backend != backend ==> m.locators[i] == meta.locators[i])
    && (meta.locators[i].backend == backend ==> m.locators[i].key == meta.locators[i].key || m.locators[i].key == key)
  }

  lemma MarkedShape(meta: Meta, backend: string, prefix: string, i: nat)
    requires i < |meta.locators|
    ensures SameBut(meta, Marked(meta, backend, prefix), backend, Name(prefix, meta.path.base), i)
  {
  }

  lemma ConfirmedShape(meta: Meta, m1: Meta, backend: string, prefix: string, i: nat)
    requires i < |meta.locators| && SameBut(meta, m1, backend, Name(prefix, meta.path.base), i)
    requires exists k :: 0 <= k < |m1.locators| && m1.locators[k].backend == backend
    ensures SameBut(meta, Confirmed(m1, backend, prefix), backend, Name(prefix, meta.path.base), i)
  {
  }

  /** How replicate changes the record in memory: only the locator of the backend. */
  lemma ReplicateShape(cfg: Config, w: World, meta: Meta, backend: string, prefix: string, i: nat)
    requires i < |meta.locators|
    ensures SameBut(meta, Replicate(cfg, w, meta, backend, prefix).meta, backend, Name(prefix, meta.path.base), i)
  {
    ReplicateMeta(cfg, w, meta, backend, prefix);
    MarkedShape(meta, backend, prefix, i);
    ConfirmedShape(meta, Marked(meta, backend, prefix), backend, prefix, i);
  }

  lemma SendGrows(cfg: Config, w: World, m1: Meta, backend: string, prefix: string)
    requires exists i :: 0 <= i < |m1.locators| && m1.locators[i].backend == backend
    ensures w.faults <= Send(cfg, w, m1, backend, prefix).w.faults
  {
    UploadFacts(cfg, Probe(w).w, Slot(backend, Name(prefix, m1.path.base)), m1.checksum, 3, false);
  }

  lemma ReplicateGrows(cfg: Config, w: World, meta: Meta, backend: string, prefix: string)
    ensures w.faults <= Replicate(cfg, w, meta, backend, prefix).w.faults
  {
    var m1 := Marked(meta, backend, prefix);
    SendGrows(cfg, IndexPut(w, m1).w, m1, backend, prefix);
  }

  // ---- check ----

  /** While Check runs, an intact copy is known: the local file, or an object when the file was not intact. */
  ghost predicate Ready(cfg: Config, w: World, meta: Meta) {
    if meta.healthy then FileIntact(cfg, w, meta.path, meta.checksum)
    else HasObject(cfg, w, meta.id, meta.checksum)
  }

  ghost predicate Checks(cfg: Config, w: World, w': World, meta: Meta) {
    && Only(cfg, w, w', meta.id)
    && w'.packed == w.packed
    && (w'.faults == {} ==> SafeFor(cfg, w', meta.id) && MetaOk(cfg, w', meta) && Ready(cfg, w', meta))
  }

  lemma ObjectSurvives(cfg: Config, w: World, w': World, slot: Slot, save: SavePath, id: int, sum: Checksum)
    requires Touches(w, w', slot, save) && HasObject(cfg, w, id, sum)
    requires ObjectIntact(cfg, w, slot, sum) ==> ObjectIntact(cfg, w', slot, sum)
    ensures HasObject(cfg, w', id, sum)
  {
    var s :| s in w.objects && cfg.owner(s.key.base) == id && ObjectIntact(cfg, w, s, sum);
    assert SameAt(w.objects, w'.objects, s) || s == slot;
    assert s in w'.objects && ObjectIntact(cfg, w', s, sum);
  }

  lemma VerifyKeeps(cfg: Config, w: World, slot: Slot, meta: Meta)
    requires SafeFor(cfg, w, meta.id) && MetaOk(cfg, w, meta) && Ready(cfg, w, meta)
    requires cfg.owner(slot.key.base) == meta.id
    ensures var v := ChecksumFromStorage(cfg, w, slot, meta.checksum, SaveFor(meta));
      Checks(cfg, w, v.w, meta) && Verifies(cfg, w, slot, meta.checksum, SaveFor(meta), v)
  {
    var sum, save := meta.checksum, SaveFor(meta);
    var v := ChecksumFromStorage(cfg, w, slot, sum, save);
    VerifyFacts(cfg, w, slot, sum, save);
    TouchesOnly(cfg, w, v.w, slot, save, meta.id);
    if v.w.faults == {} {
      TouchKeepsMeta(cfg, w, v.w, slot, save, meta);
      if meta.id in w.index {
        TouchKeepsMeta(cfg, w, v.w, slot, save, w.index[meta.id]);
      }
      if HasObject(cfg, w, meta.id, sum) {
        ObjectSurvives(cfg, w, v.w, slot, save, meta.id, sum);
      }
    }
  }

  lemma SetHealthKeeps(cfg: Config, w: World, meta: Meta, i: nat, healthy: bool)
    requires MetaOk(cfg, w, meta) && i < |meta.locators|
    requires healthy ==> ObjectIntact(cfg, w, SlotOf(meta.locators[i]), meta.checksum)
    ensures MetaOk(cfg, w, SetHealth(meta, i, healthy))
    ensures Ready(cfg, w, meta) ==> Ready(cfg, w, SetHealth(meta, i, healthy))
  {
    var m := SetHealth(meta, i, healthy);
    forall j | 0 <= j < |m.locators| && m.locators[j].healthy
      ensures ObjectIntact(cfg, w, SlotOf(m.locators[j]), m.checksum)
    {
      assert SlotOf(m.locators[j]) == SlotOf(meta.locators[j]);
    }
  }

  lemma ChecksTrans(cfg: Config, w0: World, w1: World, w2: World, m1: Meta, m2: Meta)
    requires Checks(cfg, w0, w1, m1) && Checks(cfg, w1, w2, m2) && m1.id == m2.id
    ensures Checks(cfg, w0, w2, m2)
  {
    OnlyTrans(cfg, w0, w1, w2, m1.id);
  }

  lemma ConcludedGrows(cfg: Config, w: World, slot: Slot, meta: Meta, m: Meta, i: nat)
    ensures var r := Concluded(ChecksumFromStorage(cfg, w, slot, meta.checksum, SaveFor(meta)), m, i);
      w.faults <= r.w.faults && r.meta.id == m.id
  {
    VerifyFacts(cfg, w, slot, meta.checksum, SaveFor(meta));
  }

  lemma RepairGrows(cfg: Config, w: World, meta: Meta, i: nat)
    requires i < |meta.locators|
    ensures var r := Repair(cfg, w, meta, i); w.faults <= r.w.faults && r.meta.id == meta.id
  {
    var l := meta.locators[i];
    var r := Replicate(cfg, w, meta, l.backend, l.key.dir);
    ReplicateGrows(cfg, w, meta, l.backend, l.key.dir);
    assert r.meta.id == meta.id;
    ConcludedGrows(cfg, r.w, SlotOf(l), meta, r.meta, i);
  }

  /** Recording a verification of the slot that locator i names. */
  lemma ConcludedKeeps(cfg: Config, w: World, slot: Slot, meta: Meta, i: nat)
    requires SafeFor(cfg, w, meta.id) && MetaOk(cfg, w, meta) && Ready(cfg, w, meta) && i < |meta.locators|
    requires cfg.owner(slot.key.base) == meta.id
    requires SlotOf(meta.locators[i]) == slot || !ObjectIntact(cfg, w, slot, meta.checksum)
    ensures var r := Concluded(ChecksumFromStorage(cfg, w, slot, meta.checksum, SaveFor(meta)), meta, i);
      Checks(cfg, w, r.w, r.meta)
  {
    var v := ChecksumFromStorage(cfg, w, slot, meta.checksum, SaveFor(meta));
    VerifyKeeps(cfg, w, slot, meta);
    if v.w.faults == {} && (v.v.Healthy? || v.v.Unhealthy?) {
      SetHealthKeeps(cfg, v.w, meta, i, v.v.Healthy?);
    }
  }

  /** The repair of a damaged replica from an intact local file. Where the recorded key does not end in the
      file's name, the new upload goes elsewhere and the damaged object stays recorded as unhealthy. */
  lemma RepairKeeps(cfg: Config, w: World, meta: Meta, i: nat)
    requires SafeFor(cfg, w, meta.id) && MetaOk(cfg, w, meta) && Ready(cfg, w, meta)
    requires meta.healthy && i < |meta.locators|
    requires !ObjectIntact(cfg, w, SlotOf(meta.locators[i]), meta.checksum)
    ensures var r := Repair(cfg, w, meta, i); r.w.faults == {} ==> Checks(cfg, w, r.w, r.meta)
  {
    var l := meta.locators[i];
    var target := Slot(l.backend, Name(l.key.dir, meta.path.base));
    var r := Replicate(cfg, w, meta, l.backend, l.key.dir);
    ReplicateKeeps(cfg, w, meta, l.backend, l.key.dir);
    ReplicateShape(cfg, w, meta, l.backend, l.key.dir, i);
    ConcludedGrows(cfg, r.w, SlotOf(l), meta, r.meta, i);
    assert SlotOf(l) != target ==> SameAt(w.objects, r.w.objects, SlotOf(l));
    var done := Repair(cfg, w, meta, i);
    if done.w.faults == {} && !r.s.Crashed? {
      ConcludedKeeps(cfg, r.w, SlotOf(l), r.meta, i);
      ChecksTrans(cfg, w, r.w, done.w, r.meta, done.meta);
    }
  }

  lemma CheckOneGrows(cfg: Config, w: World, meta: Meta, i: nat, force: bool)
    requires i < |meta.locators|
    ensures var r := CheckOne(cfg, w, meta, i, force); w.faults <= r.w.faults && r.meta.id == meta.id
  {
    var l := meta.locators[i];
    var v := ChecksumFromStorage(cfg, w, SlotOf(l), meta.checksum, SaveFor(meta));
    VerifyFacts(cfg, w, SlotOf(l), meta.checksum, SaveFor(meta));
    RepairGrows(cfg, v.w, meta, i);
  }

  lemma CheckOneKeeps(cfg: Config, w: World, meta: Meta, i: nat, force: bool)
    requires SafeFor(cfg, w, meta.id) && MetaOk(cfg, w, meta) && Ready(cfg, w, meta) && i < |meta.locators|
    ensures var r := CheckOne(cfg, w, meta, i, force); r.w.faults == {} ==> Checks(cfg, w, r.w, r.meta)
  {
    var r := CheckOne(cfg, w, meta, i, force);
    var l := meta.locators[i];
    if !(l.healthy && !force) && l.backend in cfg.registered && r.w.faults == {} {
      var v := ChecksumFromStorage(cfg, w, SlotOf(l), meta.checksum, SaveFor(meta));
      VerifyKeeps(cfg, w, SlotOf(l), meta);
      if meta.healthy && v.v.Unhealthy? {
        RepairGrows(cfg, v.w, meta, i);
        RepairKeeps(cfg, v.w, meta, i);
        ChecksTrans(cfg, w, v.w, r.w, meta, r.meta);
      } else {
        ConcludedKeeps(cfg, w, SlotOf(l), meta, i);
      }
    }
  }

  lemma {:induction false} CheckFromKeeps(cfg: Config, w: World, meta: Meta, i: nat, n: nat, force: bool)
    requires i <= n
    ensures var r := CheckFrom(cfg, w, meta, i, n, force);
      && w.faults <= r.w.faults && r.meta.id == meta.id
      && (r.w.faults == {} && SafeFor(cfg, w, meta.id) && MetaOk(cfg, w, meta) && Ready(cfg, w, meta) ==>
            Checks(cfg, w, r.w, r.meta))
    decreases n - i
  {
    if i < n && i < |meta.locators| {
      var r := CheckOne(cfg, w, meta, i, force);
      CheckOneGrows(cfg, w, meta, i, force);
      if r.s.Done? { CheckFromKeeps(cfg, r.w, r.meta, i + 1, n, force); }
      var rest := CheckFrom(cfg, w, meta, i, n, force);
      assert rest == if r.s.Done? then CheckFrom(cfg, r.w, r.meta, i + 1, n, force) else r;
      if rest.w.faults == {} && SafeFor(cfg, w, meta.id) && MetaOk(cfg, w, meta) && Ready(cfg, w, meta) {
        CheckOneKeeps(cfg, w, meta, i, force);
        if r.s.Done? { ChecksTrans(cfg, w, r.w, rest.w, r.meta, rest.meta); }
      }
    }
  }

  /** What every helper call keeps for the one id it works on. */
  ghost predicate KeepsId(cfg: Config, w: World, w': World, id: int) {
    w.faults <= w'.faults && (w'.faults == {} && SafeFor(cfg, w, id) ==> Only(cfg, w, w', id) && SafeFor(cfg, w', id))
  }

  lemma KeepsTrans(cfg: Config, w0: World, w1: World, w2: World, id: int)
    requires KeepsId(cfg, w0, w1, id) && KeepsId(cfg, w1, w2, id)
    ensures KeepsId(cfg, w0, w2, id)
  {
    if w2.faults == {} && SafeFor(cfg, w0, id) { OnlyTrans(cfg, w0, w1, w2, id); }
  }

  lemma CheckKeeps(cfg: Config, w: World, id: int, force: bool)
    ensures KeepsId(cfg, w, Check(cfg, w, id, force).w, id)
  {
    var out := Check(cfg, w, id, force);
    var get := Probe(w);
    if id in w.index {
      var m0 := w.index[id];
      ProbeKeeps(cfg, w, id, m0);
      var local := ChecksumFromFile(cfg, get.w, m0.path, m0.checksum);
      ProbeKeeps(cfg, get.w, id, m0);
      OnlyTrans(cfg, w, get.w, local.w, id);
      var m1 := m0.(healthy := local.v.Healthy?);
      CheckFromKeeps(cfg, local.w, m1, 0, |m1.locators|, force);
      var r := CheckFrom(cfg, local.w, m1, 0, |m1.locators|, force);
      if get.s.Done? && ValidMeta(m0) && (local.v.Healthy? || local.v.Unhealthy?) && out.w.faults == {} && SafeFor(cfg, w, id) {
        assert MetaOk(cfg, local.w, m1) && Ready(cfg, local.w, m1);
        assert Checks(cfg, local.w, r.w, r.meta);
        OnlyTrans(cfg, w, local.w, r.w, id);
        if r.s.Done? {
          PutKeepsSafe(cfg, r.w, r.meta);
          OnlyTrans(cfg, w, r.w, out.w, id);
        }
      }
    } else {
      ProbeKeeps(cfg, w, id, Meta(0, Name("", ""), Checksum(Md5, ""), 0, [], [], false));
    }
  }

  // ---- retention ----

  /** Removing the local file beside an intact object. */
  lemma RemoveKeeps(cfg: Config, w: World, meta: Meta, i: nat)
    requires SafeFor(cfg, w, meta.id) && MetaOk(cfg, w, meta)
    requires i < |meta.locators| && meta.locators[i].healthy
    ensures var rm := Remove(w, meta.path);
      Only(cfg, w, rm.w, meta.id) && rm.w.faults == w.faults && SafeFor(cfg, rm.w, meta.id) && MetaOk(cfg, rm.w, meta)
  {
    var rm := Remove(w, meta.path);
    assert ObjectIntact(cfg, w, SlotOf(meta.locators[i]), meta.checksum);
    assert SlotOf(meta.locators[i]) in rm.w.objects && ObjectIntact(cfg, rm.w, SlotOf(meta.locators[i]), meta.checksum);
    assert HasObject(cfg, rm.w, meta.id, meta.checksum);
  }

  lemma UnhealthyOk(cfg: Config, w: World, meta: Meta)
    requires MetaOk(cfg, w, meta)
    ensures MetaOk(cfg, w, meta.(healthy := false))
  {
  }

  /** The index write after the removal. */
  lemma UnmarkKeeps(cfg: Config, w: World, w1: World, meta: Meta)
    requires Only(cfg, w, w1, meta.id) && w1.faults == w.faults && SafeFor(cfg, w1, meta.id) && MetaOk(cfg, w1, meta)
    ensures var r := IndexPut(w1, meta.(healthy := false));
            r.w.faults == w.faults && Only(cfg, w, r.w, meta.id) && SafeFor(cfg, r.w, meta.id)
  {
    var m1 := meta.(healthy := false);
    UnhealthyOk(cfg, w1, meta);
    PutKeepsSafe(cfg, w1, m1);
    OnlyTrans(cfg, w, w1, IndexPut(w1, m1).w, meta.id);
  }

  lemma RetainOneKeeps(cfg: Config, w: World, meta: Meta)
    requires SafeFor(cfg, w, meta.id) && MetaOk(cfg, w, meta)
    ensures var r := RetainOne(w, meta); r.w.faults == w.faults && Only(cfg, w, r.w, meta.id) && SafeFor(cfg, r.w, meta.id)
  {
    if HasHealthy(meta.locators) {
      var i :| 0 <= i < |meta.locators| && meta.locators[i].healthy;
      RemoveKeeps(cfg, w, meta, i);
      UnmarkKeeps(cfg, w, Remove(w, meta.path).w, meta);
    }
  }

  // ---- listings ----

  ghost predicate Listing(cfg: Config, w: World, items: seq<Meta>) {
    && (forall i, j :: 0 <= i < j < |items| ==> items[i].id != items[j].id)
    && (forall i :: 0 <= i < |items| ==> MetaOk(cfg, w, items[i]))
  }

  ghost predicate Distinct(ids: seq<int>) {
    forall i, j :: 0 <= i < j < |ids| ==> ids[i] != ids[j]
  }

  lemma {:induction false} ListedOk(cfg: Config, w: World, ids: seq<int>)
    requires Safe(cfg, w) && Distinct(ids)
    ensures Listing(cfg, w, Listed(w, ids))
    ensures forall i :: 0 <= i < |Listed(w, ids)| ==> Listed(w, ids)[i].id in ids
    decreases |ids|
  {
    if ids != [] {
      var rest := Listed(w, ids[1..]);
      ListedOk(cfg, w, ids[1..]);
      assert SafeFor(cfg, w, ids[0]);
      forall i | 0 <= i < |rest| ensures rest[i].id in ids && rest[i].id != ids[0] {
        assert rest[i].id in ids[1..];
        var j :| 0 <= j < |ids[1..]| && ids[1..][j] == rest[i].id;
        assert ids[j + 1] == rest[i].id;
      }
    }
  }

  lemma ListingSurvives(cfg: Config, w: World, w': World, items: seq<Meta>)
    requires items != [] && Listing(cfg, w, items) && Only(cfg, w, w', items[0].id)
    ensures Listing(cfg, w', items[1..])
  {
    forall i | 0 <= i < |items[1..]| ensures MetaOk(cfg, w', items[1..][i]) {
      FrameMeta(cfg, w, w', items[0].id, items[i + 1]);
    }
  }

  lemma {:induction false} RetainKeeps(cfg: Config, w: World, items: seq<Meta>)
    requires Safe(cfg, w) && Listing(cfg, w, items)
    ensures Safe(cfg, Retain(w, items).w) && Retain(w, items).w.faults == w.faults
    decreases |items|
  {
    if items != [] && items[0].path.base != "" {
      var r := RetainOne(w, items[0]);
      RetainOneKeeps(cfg, w, items[0]);
      FrameAll(cfg, w, r.w, items[0].id);
      if r.s.Done? {
        ListingSurvives(cfg, w, r.w, items);
        RetainKeeps(cfg, r.w, items[1..]);
      }
    }
  }

  lemma {:induction false} ReplicateAllKeeps(cfg: Config, w: World, items: seq<Meta>, backend: string, prefix: string)
    ensures var r := ReplicateAll(cfg, w, items, backend, prefix);
      w.faults <= r.w.faults && (r.w.faults == {} && Safe(cfg, w) && Listing(cfg, w, items) ==> Safe(cfg, r.w))
    decreases |items|
  {
    if items != [] {
      var r := Replicate(cfg, w, items[0], backend, prefix);
      ReplicateGrows(cfg, w, items[0], backend, prefix);
      if r.s.Done? { ReplicateAllKeeps(cfg, r.w, items[1..], backend, prefix); }
      if r.w.faults == {} && Safe(cfg, w) && Listing(cfg, w, items) {
        assert SafeFor(cfg, w, items[0].id);
        ReplicateKeeps(cfg, w, items[0], backend, prefix);
        FrameAll(cfg, w, r.w, items[0].id);
        ListingSurvives(cfg, w, r.w, items);
      }
    }
  }

  // ---- archive ----

  /** Packing onto a path that no recorded archive uses. */
  lemma PackKeeps(cfg: Config, w: World, id: int, dest: Name)
    requires cfg.owner(dest.base) == id
    ensures var p := Pack(w, dest);
      && w.faults <= p.w.faults && p.w.objects == w.objects && p.w.index == w.index && p.w.packed == w.packed
      && (p.s.Done? ==> dest in p.w.files)
      && (p.w.faults == {} && SafeFor(cfg, w, id) ==> Only(cfg, w, p.w, id) && SafeFor(cfg, p.w, id))
  {
    var p := Pack(w, dest);
    if id in w.packed && HasObject(cfg, w, id, w.packed[id].checksum) {
      var slot :| slot in w.objects && cfg.owner(slot.key.base) == id && ObjectIntact(cfg, w, slot, w.packed[id].checksum);
      assert slot in p.w.objects && ObjectIntact(cfg, p.w, slot, w.packed[id].checksum);
    }
  }

  lemma {:induction false} ReplicateToKeeps(cfg: Config, w: World, meta: Meta, backends: seq<string>, prefix: string)
    ensures var r := ReplicateTo(cfg, w, meta, backends, prefix);
      && w.faults <= r.w.faults
      && (r.w.faults == {} && SafeFor(cfg, w, meta.id) && MetaOk(cfg, w, meta) ==>
            Only(cfg, w, r.w, meta.id) && SafeFor(cfg, r.w, meta.id))
    decreases |backends|
  {
    if backends != [] {
      var r := Replicate(cfg, w, meta, backends[0], prefix);
      ReplicateGrows(cfg, w, meta, backends[0], prefix);
      ReplicateSameId(cfg, w, meta, backends[0], prefix);
      if r.s.Done? { ReplicateToKeeps(cfg, r.w, r.meta, backends[1..], prefix); }
      var rest := ReplicateTo(cfg, w, meta, backends, prefix);
      if rest.w.faults == {} && SafeFor(cfg, w, meta.id) && MetaOk(cfg, w, meta) {
        ReplicateKeeps(cfg, w, meta, backends[0], prefix);
        if r.s.Done? { OnlyTrans(cfg, w, r.w, rest.w, meta.id); }
      }
    }
  }

  lemma ReplicateSameId(cfg: Config, w: World, meta: Meta, backend: string, prefix: string)
    ensures Replicate(cfg, w, meta, backend, prefix).meta.id == meta.id
  {
  }

  /** Recording a new pack whose file is on disk under its own checksum. */
  lemma RecordKeeps(cfg: Config, w: World, meta: Meta)
    requires SafeFor(cfg, w, meta.id) && cfg.owner(meta.path.base) == meta.id
    requires FileIntact(cfg, w, meta.path, meta.checksum) && meta.locators == []
    ensures var r := Record(w, meta);
      && Only(cfg, w, r.w, meta.id) && r.w.faults == w.faults && SafeFor(cfg, r.w, meta.id)
      && (r.s.Done? ==> MetaOk(cfg, r.w, meta))
  {
    var r := Record(w, meta);
    if LeftOf(Peek(w)).New? {
      assert r.w.index == w.index[meta.id := meta] && r.w.packed == w.packed[meta.id := Copy(meta.path, meta.checksum)];
      assert MetaOk(cfg, r.w, meta);
    } else {
      FewerRecords(cfg, w, r.w, meta.id);
    }
  }

  lemma FewerRecords(cfg: Config, w: World, w': World, id: int)
    requires SafeFor(cfg, w, id)
    requires w'.files == w.files && w'.objects == w.objects && w'.packed == w.packed
    requires id in w'.index ==> id in w.index && w'.index[id] == w.index[id]
    ensures SafeFor(cfg, w', id)
  {
    if id in w.packed && HasObject(cfg, w, id, w.packed[id].checksum) {
      var slot :| slot in w.objects && cfg.owner(slot.key.base) == id && ObjectIntact(cfg, w, slot, w.packed[id].checksum);
      assert slot in w'.objects && ObjectIntact(cfg, w', slot, w.packed[id].checksum);
    }
  }

  /** From an intact file on disk, recording it and replicating it. */
  lemma PublishKeeps(cfg: Config, w: World, meta: Meta, backends: seq<string>, prefix: string)
    requires cfg.owner(meta.path.base) == meta.id
    requires FileIntact(cfg, w, meta.path, meta.checksum) && meta.locators == []
    ensures KeepsId(cfg, w, Publish(cfg, w, meta, backends, prefix).w, meta.id)
  {
    var put, out := Record(w, meta), Publish(cfg, w, meta, backends, prefix);
    if put.s.Done? { ReplicateToKeeps(cfg, put.w, meta, backends, prefix); }
    if out.w.faults == {} && SafeFor(cfg, w, meta.id) {
      RecordKeeps(cfg, w, meta);
      if put.s.Done? { OnlyTrans(cfg, w, put.w, out.w, meta.id); }
    }
  }

  lemma ArchiveKeeps(cfg: Config, w: World, id: int, dest: Name, backends: seq<string>, prefix: string)
    requires cfg.owner(dest.base) == id
    ensures KeepsId(cfg, w, Archive(cfg, w, id, dest, backends, prefix).w, id)
  {
    var out := Archive(cfg, w, id, dest, backends, prefix);
    var none := Meta(0, Name("", ""), Checksum(Md5, ""), 0, [], [], false);
    var get := Probe(w);
    ProbeKeeps(cfg, w, id, none);
    if dest.base != "" && get.s.Done? {
      var packing := Pack(get.w, dest);
      PackKeeps(cfg, get.w, id, dest);
      KeepsTrans(cfg, w, get.w, packing.w, id);
      if packing.s.Done? {
        var hash := Probe(packing.w);
        ProbeKeeps(cfg, packing.w, id, none);
        KeepsTrans(cfg, w, packing.w, hash.w, id);
        if hash.s.Done? && id != 0 {
          PublishKeeps(cfg, hash.w, Fresh(cfg, hash.w, id, dest, HistoryOf(w, id)), backends, prefix);
          KeepsTrans(cfg, w, hash.w, out.w, id);
        }
      }
    }
  }

  // ---- runs ----

  /** What the caller of one helper call owes: a listing returns a record once, and the file packed for an id
      carries a name that belongs to the id. */
  ghost predicate OpOk(cfg: Config, op: Op) {
    match op
    case ArchiveOp(_, id, dest, _, _) => cfg.owner(dest.base) == id
    case ReplicateOp(_, ids, _, _) => Distinct(ids)
    case CheckOp(_, _, _) => true
    case RetainOp(_, ids) => Distinct(ids)
  }

  lemma TapeKeeps(cfg: Config, w: World, tape: seq<Event>)
    requires Safe(cfg, w)
    ensures Safe(cfg, w.(tape := tape))
  {
    var w' := w.(tape := tape);
    forall id ensures SafeFor(cfg, w', id) {
      assert SafeFor(cfg, w, id);
      if id in w.packed && HasObject(cfg, w, id, w.packed[id].checksum) {
        var slot :| slot in w.objects && cfg.owner(slot.key.base) == id && ObjectIntact(cfg, w, slot, w.packed[id].checksum);
        assert slot in w'.objects && ObjectIntact(cfg, w', slot, w.packed[id].checksum);
      }
    }
  }

  lemma ApplyKeeps(cfg: Config, w: World, op: Op)
    requires OpOk(cfg, op)
    ensures w.faults <= Apply(cfg, w, op).faults
    ensures Apply(cfg, w, op).faults == {} && Safe(cfg, w) ==> Safe(cfg, Apply(cfg, w, op))
  {
    var w0, w1 := w.(tape := op.tape), Apply(cfg, w, op);
    if Safe(cfg, w) { TapeKeeps(cfg, w, op.tape); }
    match op
    case ArchiveOp(_, id, dest, backends, prefix) =>
      ArchiveKeeps(cfg, w0, id, dest, backends, prefix);
      if w1.faults == {} && Safe(cfg, w) { FrameAll(cfg, w0, w1, id); }
    case CheckOp(_, id, force) =>
      CheckKeeps(cfg, w0, id, force);
      if w1.faults == {} && Safe(cfg, w) { FrameAll(cfg, w0, w1, id); }
    case ReplicateOp(_, ids, backend, prefix) =>
      var list := Probe(w0);
      ReplicateAllKeeps(cfg, list.w, Listed(w0, ids), backend, prefix);
      if Safe(cfg, w) { TapeKeeps(cfg, w, list.w.tape); ListedSame(w0, list.w, ids); ListedOk(cfg, list.w, ids); }
    case RetainOp(_, ids) =>
      var list := Probe(w0);
      RetainGrows(list.w, Listed(w0, ids));
      if Safe(cfg, w) {
        TapeKeeps(cfg, w, list.w.tape);
        ListedSame(w0, list.w, ids);
        ListedOk(cfg, list.w, ids);
        RetainKeeps(cfg, list.w, Listed(w0, ids));
      }
  }

  lemma RetainGrows(w: World, items: seq<Meta>)
    ensures Retain(w, items).w.faults == w.faults
    decreases |items|
  {
  }

  lemma ListedSame(w: World, w': World, ids: seq<int>)
    requires w.index == w'.index
    ensures Listed(w, ids) == Listed(w', ids)
    decreases |ids|
  {
  }

  /** Over every run of helper calls in which no fault was raised, whatever the environment did at each
      input/output step and wherever processes died: every locator recorded healthy names an intact object,
      the recorded backends are pairwise distinct, and no packed id has lost its last intact copy. */
  lemma {:induction false} CopySafety(cfg: Config, w: World, ops: seq<Op>)
    requires forall i :: 0 <= i < |ops| ==> OpOk(cfg, ops[i])
    requires Safe(cfg, w)
    ensures Run(cfg, w, ops).faults == {} ==> Safe(cfg, Run(cfg, w, ops))
    decreases |ops|
  {
    if ops != [] {
      ApplyKeeps(cfg, w, ops[0]);
      var w1 := Apply(cfg, w, ops[0]);
      if w1.faults == {} {
        CopySafety(cfg, w1, ops[1..]);
      } else {
        RunGrows(cfg, w1, ops[1..]);
      }
    }
  }

  lemma {:induction false} RunGrows(cfg: Config, w: World, ops: seq<Op>)
    requires forall i :: 0 <= i < |ops| ==> OpOk(cfg, ops[i])
    ensures w.faults <= Run(cfg, w, ops).faults
    decreases |ops|
  {
    if ops != [] {
      ApplyKeeps(cfg, w, ops[0]);
      RunGrows(cfg, Apply(cfg, w, ops[0]), ops[1..]);
    }
  }
}
