/** What the calls of the archive helper make of the index, stated over the index before and after: which field of which
    record changes, in a call that succeeds and in one cut off anywhere. */
module ReplicaRecords {
  import opened ReplicaModel
  import opened ReplicaSafety

  /** The records are pairwise distinct ones of the index, as a listing returns them. */
  ghost predicate FromIndex(index: map<int, Meta>, items: seq<Meta>) {
    && (forall i, j :: 0 <= i < j < |items| ==> items[i].id != items[j].id)
    && (forall i :: 0 <= i < |items| ==> items[i].id in index && index[items[i].id] == items[i])
  }

  ghost predicate Selected(items: seq<Meta>, id: int) {
    exists i :: 0 <= i < |items| && items[i].id == id
  }

  lemma SelectedRest(items: seq<Meta>, id: int)
    requires items != []
    ensures Selected(items, id) <==> items[0].id == id || Selected(items[1..], id)
  {
    if Selected(items, id) && items[0].id != id {
      var i :| 0 <= i < |items| && items[i].id == id;
      assert items[1..][i - 1].id == id;
    }
    if Selected(items[1..], id) {
      var i :| 0 <= i < |items[1..]| && items[1..][i].id == id;
      assert items[i + 1].id == id;
    }
  }

  /** Only the record of the id may differ. */
  ghost predicate OnlyRecord(index: map<int, Meta>, index': map<int, Meta>, id: int) {
    forall j :: j != id ==> SameAt(index, index', j)
  }

  lemma OnlyRecordTrans(index0: map<int, Meta>, index1: map<int, Meta>, index2: map<int, Meta>, id: int)
    requires OnlyRecord(index0, index1, id) && OnlyRecord(index1, index2, id)
    ensures OnlyRecord(index0, index2, id)
  {
    forall j | j != id ensures SameAt(index0, index2, j) {
      assert SameAt(index0, index1, j) && SameAt(index1, index2, j);
    }
  }

  /** The rest of a listing after a call that changed the first record only. */
  lemma RestFromIndex(index: map<int, Meta>, index': map<int, Meta>, items: seq<Meta>)
    requires items != [] && FromIndex(index, items) && OnlyRecord(index, index', items[0].id)
    ensures FromIndex(index', items[1..])
    ensures !Selected(items[1..], items[0].id)
  {
    forall i | 0 <= i < |items[1..]|
      ensures items[1..][i].id in index' && index'[items[1..][i].id] == items[1..][i]
    {
      assert items[i + 1].id != items[0].id;
      assert SameAt(index, index', items[i + 1].id);
    }
  }

  /** One index write of a record under its id, however it ended. */
  lemma PutRecord(w: World, m: Meta)
    ensures var put := IndexPut(w, m);
      && OnlyRecord(w.index, put.w.index, m.id)
      && (put.s.Done? ==> m.id in put.w.index && put.w.index[m.id] == m)
      && (m.id in put.w.index ==> put.w.index[m.id] == m || SameAt(w.index, put.w.index, m.id))
  {
  }

  // ---- retention ----

  /** A listed record with a healthy replica loses its local health and nothing else, and no other record changes.
      A retention that stops before its end leaves the record as it was or without local health, or leaves none. */
  ghost predicate RetainedAt(index: map<int, Meta>, index': map<int, Meta>, items: seq<Meta>, id: int, done: bool) {
    if Selected(items, id) && id in index && HasHealthy(index[id].locators) then
      && (done ==> id in index')
      && (id in index' ==> index'[id] == index[id].(healthy := false) || (!done && index'[id] == index[id]))
    else
      SameAt(index, index', id)
  }

  /** The positions before n of records with a healthy replica. */
  ghost function Due(items: seq<Meta>, n: nat): set<nat>
    requires n <= |items|
  {
    set i: nat | i < n && HasHealthy(items[i].locators)
  }

  lemma DueNext(items: seq<Meta>, i: nat)
    requires i < |items|
    ensures |Due(items, i + 1)| == |Due(items, i)| + if HasHealthy(items[i].locators) then 1 else 0
  {
    assert Due(items, i + 1) == Due(items, i) + if HasHealthy(items[i].locators) then {i} else {};
  }

  lemma RetainOneRecord(w: World, meta: Meta)
    requires meta.id in w.index && w.index[meta.id] == meta
    ensures var r := RetainOne(w, meta);
      && OnlyRecord(w.index, r.w.index, meta.id)
      && RetainedAt(w.index, r.w.index, [meta], meta.id, r.s.Done?)
  {
    assert [meta][0].id == meta.id;
    var rm := Remove(w, meta.path);
    PutRecord(rm.w, meta.(healthy := false));
  }

  lemma {:induction false} RetentionRecords(w: World, items: seq<Meta>, id: int)
    requires FromIndex(w.index, items)
    ensures var r := Retain(w, items); RetainedAt(w.index, r.w.index, items, id, r.s.Done?)
    decreases |items|
  {
    if items != [] && items[0].path.base != "" {
      var r := RetainOne(w, items[0]);
      RetainOneRecord(w, items[0]);
      RestFromIndex(w.index, r.w.index, items);
      SelectedRest(items, id);
      if r.s.Done? { RetentionRecords(r.w, items[1..], id); }
    }
  }

  /** The index after a retention of records that were listed from it. */
  lemma RetentionIndex(w: World, items: seq<Meta>)
    ensures var r := Retain(w, items);
      FromIndex(w.index, items) ==> forall id :: RetainedAt(w.index, r.w.index, items, id, r.s.Done?)
  {
    if FromIndex(w.index, items) {
      forall id ensures RetainedAt(w.index, Retain(w, items).w.index, items, id, Retain(w, items).s.Done?) {
        RetentionRecords(w, items, id);
      }
    }
  }

  // ---- replicate ----

  /** The locators m with l at the place of its backend, or behind them if the backend is new. */
  ghost predicate PutAtBackend(ls: seq<Locator>, ls': seq<Locator>, l: Locator) {
    && (forall i :: 0 <= i < |ls| && ls[i].backend == l.backend ==> ls' == ls[i := l])
    && ((forall i :: 0 <= i < |ls| ==> ls[i].backend != l.backend) ==> ls' == ls + [l])
  }

  /** The record m is meta with the replica on the backend entered, and nothing else changed. */
  ghost predicate Entered(meta: Meta, m: Meta, backend: string, prefix: string, healthy: bool) {
    m.(locators := meta.locators) == meta
    && PutAtBackend(meta.locators, m.locators, Locator(backend, Name(prefix, meta.path.base), healthy))
  }

  /** What a replication makes of the record under its id: the replica is entered as unhealthy, then as healthy; a
      replication that stops before leaves the record as it was, or one of those two, or none. */
  ghost predicate ReplicatedAt(index: map<int, Meta>, index': map<int, Meta>, meta: Meta, backend: string, prefix: string, done: bool) {
    && (done ==> meta.id in index' && Entered(meta, index'[meta.id], backend, prefix, true))
    && (meta.id in index' ==>
          || SameAt(index, index', meta.id)
          || Entered(meta, index'[meta.id], backend, prefix, true)
          || Entered(meta, index'[meta.id], backend, prefix, false))
  }

  lemma MarkedEntered(meta: Meta, backend: string, prefix: string)
    requires DistinctBackends(meta)
    ensures Entered(meta, Marked(meta, backend, prefix), backend, prefix, false)
  {
    var l := Pending(meta, backend, prefix);
    forall i | 0 <= i < |meta.locators| && meta.locators[i].backend == backend
      ensures Mark(meta.locators, l) == meta.locators[i := l]
    {
      forall k | 0 <= k < |meta.locators| ensures Mark(meta.locators, l)[k] == meta.locators[i := l][k] {
        assert k != i ==> meta.locators[k].backend != backend;
      }
    }
    if forall i :: 0 <= i < |meta.locators| ==> meta.locators[i].backend != backend {
      assert Mark(meta.locators, l) == meta.locators + [l];
    }
  }

  lemma ConfirmedEntered(meta: Meta, m1: Meta, backend: string, prefix: string)
    requires Entered(meta, m1, backend, prefix, false) && DistinctBackends(meta)
    requires exists i :: 0 <= i < |m1.locators| && m1.locators[i].backend == backend
    ensures Entered(meta, Confirmed(m1, backend, prefix), backend, prefix, true)
  {
    var k := LastOf(m1.locators, backend);
    var l := Pending(m1, backend, prefix).(healthy := true);
    var m2 := Confirmed(m1, backend, prefix);
    if i :| 0 <= i < |meta.locators| && meta.locators[i].backend == backend {
      assert m1.locators == meta.locators[i := Pending(meta, backend, prefix)];
      assert k == i;
      assert m2.locators == meta.locators[i := l];
    } else {
      assert m1.locators == meta.locators + [Pending(meta, backend, prefix)];
      assert k == |meta.locators|;
      assert m2.locators == meta.locators + [l];
    }
  }

  /** What sending the marked record m1 makes of the index: it ends with the confirmed record m2 in place of it. */
  ghost predicate SentAt(index: map<int, Meta>, r: Replication, m1: Meta, m2: Meta) {
    && (r.meta == m1 || r.meta == m2)
    && OnlyRecord(index, r.w.index, m1.id)
    && (r.s.Done? ==> r.meta == m2 && m1.id in r.w.index && r.w.index[m1.id] == m2)
    && (m1.id in r.w.index ==> SameAt(index, r.w.index, m1.id) || r.w.index[m1.id] == m2)
  }

  lemma ConfirmRecord(w: World, m1: Meta, m2: Meta)
    requires m2.id == m1.id
    ensures var put := IndexPut(w, m2); SentAt(w.index, Replication(put.w, m2, put.s), m1, m2)
  {
    PutRecord(w, m2);
  }

  /** Sending ends with one index write, or without any. */
  lemma SendCases(cfg: Config, w: World, m1: Meta, backend: string, prefix: string) returns (w1: World)
    requires exists i :: 0 <= i < |m1.locators| && m1.locators[i].backend == backend
    ensures w1.index == w.index && w1.files == w.files
    ensures var r, m2 := Send(cfg, w, m1, backend, prefix), Confirmed(m1, backend, prefix);
      || (r == Replication(w1, m1, r.s) && !r.s.Done?)
      || r == Replication(IndexPut(w1, m2).w, m2, IndexPut(w1, m2).s)
  {
    if m1.path !in w.files || !Probe(w).s.Done? {
      return Send(cfg, w, m1, backend, prefix).w;
    }
    var slot := Slot(backend, Name(prefix, m1.path.base));
    var up := Upload(cfg, Probe(w).w, slot, m1.checksum, 3, false);
    UploadFacts(cfg, Probe(w).w, slot, m1.checksum, 3, false);
    w1 := if up.end.Killed? || up.end.GaveUp? then up.w else Flag(up.w, Blind, up.end.Unverified?);
  }

  lemma SendRecord(cfg: Config, w: World, m1: Meta, backend: string, prefix: string)
    requires exists i :: 0 <= i < |m1.locators| && m1.locators[i].backend == backend
    ensures SentAt(w.index, Send(cfg, w, m1, backend, prefix), m1, Confirmed(m1, backend, prefix))
    ensures Send(cfg, w, m1, backend, prefix).w.files == w.files
  {
    var w1 := SendCases(cfg, w, m1, backend, prefix);
    ConfirmRecord(w1, m1, Confirmed(m1, backend, prefix));
  }

  /** A replication changes one record, and of that only the locator of its backend. */
  lemma ReplicationRecord(cfg: Config, w: World, meta: Meta, backend: string, prefix: string)
    requires DistinctBackends(meta)
    ensures var r := Replicate(cfg, w, meta, backend, prefix);
      && OnlyRecord(w.index, r.w.index, meta.id)
      && ReplicatedAt(w.index, r.w.index, meta, backend, prefix, r.s.Done?)
      && (r.s.Done? ==> r.w.index[meta.id] == r.meta)
      && r.w.files == w.files
      && (r.meta == meta || Entered(meta, r.meta, backend, prefix, false) || Entered(meta, r.meta, backend, prefix, true))
  {
    var m1 := Marked(meta, backend, prefix);
    var put := IndexPut(w, m1);
    MarkedEntered(meta, backend, prefix);
    ConfirmedEntered(meta, m1, backend, prefix);
    PutRecord(w, m1);
    if put.s.Done? {
      SendRecord(cfg, put.w, m1, backend, prefix);
      OnlyRecordTrans(w.index, put.w.index, Send(cfg, put.w, m1, backend, prefix).w.index, meta.id);
    }
  }

  /** A replication of the record of an id, with changes of other records before and behind it. */
  lemma ReplicatedAmid(index0: map<int, Meta>, index1: map<int, Meta>, index2: map<int, Meta>, index3: map<int, Meta>, meta: Meta,
                       backend: string, prefix: string, done: bool)
    requires SameAt(index0, index1, meta.id) && SameAt(index2, index3, meta.id)
    requires ReplicatedAt(index1, index2, meta, backend, prefix, done)
    ensures ReplicatedAt(index0, index3, meta, backend, prefix, done)
  {
  }

  ghost predicate AllDistinct(items: seq<Meta>) {
    forall i :: 0 <= i < |items| ==> DistinctBackends(items[i])
  }

  /** What a replication of the listed records makes of the record of one id. */
  ghost predicate ReplicatedIn(index: map<int, Meta>, index': map<int, Meta>, items: seq<Meta>, id: int,
                               backend: string, prefix: string, done: bool) {
    if Selected(items, id) && id in index then ReplicatedAt(index, index', index[id], backend, prefix, done)
    else SameAt(index, index', id)
  }

  lemma ReplicatedNext(index: map<int, Meta>, index1: map<int, Meta>, index2: map<int, Meta>, items: seq<Meta>, id: int,
                       backend: string, prefix: string, done: bool)
    requires items != [] && FromIndex(index, items) && OnlyRecord(index, index1, items[0].id)
    requires ReplicatedAt(index, index1, items[0], backend, prefix, true)
    requires ReplicatedIn(index1, index2, items[1..], id, backend, prefix, done)
    ensures ReplicatedIn(index, index2, items, id, backend, prefix, done)
  {
    RestFromIndex(index, index1, items);
    SelectedRest(items, id);
    if id == items[0].id {
      ReplicatedAmid(index, index, index1, index2, items[0], backend, prefix, true);
    } else {
      assert SameAt(index, index1, id);
      if Selected(items, id) && id in index {
        assert index[id].id == id;
        ReplicatedAmid(index, index1, index2, index2, index[id], backend, prefix, done);
      }
    }
  }

  /** Each listed record gets the replica; no other record changes. */
  lemma {:induction false} ReplicationRecords(cfg: Config, w: World, items: seq<Meta>, backend: string, prefix: string, id: int)
    requires FromIndex(w.index, items) && AllDistinct(items)
    ensures var r := ReplicateAll(cfg, w, items, backend, prefix);
      ReplicatedIn(w.index, r.w.index, items, id, backend, prefix, r.s.Done?)
    decreases |items|
  {
    if items != [] {
      var r := Replicate(cfg, w, items[0], backend, prefix);
      ReplicationRecord(cfg, w, items[0], backend, prefix);
      if r.s.Done? {
        RestFromIndex(w.index, r.w.index, items);
        ReplicationRecords(cfg, r.w, items[1..], backend, prefix, id);
        var all := ReplicateAll(cfg, r.w, items[1..], backend, prefix);
        ReplicatedNext(w.index, r.w.index, all.w.index, items, id, backend, prefix, all.s.Done?);
      } else {
        SelectedRest(items, id);
        ReplicatedStop(w.index, r.w.index, items, id, backend, prefix);
      }
    }
  }

  lemma ReplicatedStop(index: map<int, Meta>, index1: map<int, Meta>, items: seq<Meta>, id: int, backend: string, prefix: string)
    requires items != [] && FromIndex(index, items) && OnlyRecord(index, index1, items[0].id)
    requires ReplicatedAt(index, index1, items[0], backend, prefix, false)
    ensures ReplicatedIn(index, index1, items, id, backend, prefix, false)
  {
    if Selected(items, id) && id in index && id != items[0].id {
      assert index[id].id == id;
    }
  }

  // ---- check ----

  /** The same archive: at most health and locators differ. */
  ghost predicate SameArchive(m: Meta, m': Meta) {
    m'.(healthy := m.healthy, locators := m.locators) == m
  }

  /** What a step of a check makes of the index and of the record m in memory. */
  ghost predicate CheckedAt(index: map<int, Meta>, index': map<int, Meta>, m: Meta, m': Meta) {
    && SameArchive(m, m') && m'.healthy == m.healthy && DistinctBackends(m')
    && OnlyRecord(index, index', m.id)
    && (m.id in index' ==> SameAt(index, index', m.id) || (SameArchive(m, index'[m.id]) && DistinctBackends(index'[m.id])))
  }

  lemma CheckedTrans(index0: map<int, Meta>, index1: map<int, Meta>, index2: map<int, Meta>, m0: Meta, m1: Meta, m2: Meta)
    requires CheckedAt(index0, index1, m0, m1) && CheckedAt(index1, index2, m1, m2)
    ensures CheckedAt(index0, index2, m0, m2)
  {
    OnlyRecordTrans(index0, index1, index2, m0.id);
  }

  lemma EnteredDistinct(meta: Meta, m: Meta, backend: string, prefix: string, healthy: bool)
    requires DistinctBackends(meta) && Entered(meta, m, backend, prefix, healthy)
    ensures DistinctBackends(m)
  {
    if i :| 0 <= i < |meta.locators| && meta.locators[i].backend == backend {
      assert m.locators == meta.locators[i := Locator(backend, Name(prefix, meta.path.base), healthy)];
    }
  }

  lemma ConcludedRecord(cfg: Config, w: World, slot: Slot, save: Meta, m: Meta, i: nat)
    requires DistinctBackends(m)
    ensures var r := Concluded(ChecksumFromStorage(cfg, w, slot, save.checksum, SaveFor(save)), m, i);
      CheckedAt(w.index, r.w.index, m, r.meta)
  {
    VerifyFacts(cfg, w, slot, save.checksum, SaveFor(save));
  }

  lemma RepairRecord(cfg: Config, w: World, meta: Meta, i: nat)
    requires i < |meta.locators| && DistinctBackends(meta)
    ensures var r := Repair(cfg, w, meta, i); CheckedAt(w.index, r.w.index, meta, r.meta)
  {
    var l := meta.locators[i];
    var r := Replicate(cfg, w, meta, l.backend, l.key.dir);
    ReplicationRecord(cfg, w, meta, l.backend, l.key.dir);
    forall m, healthy | Entered(meta, m, l.backend, l.key.dir, healthy) ensures DistinctBackends(m) {
      EnteredDistinct(meta, m, l.backend, l.key.dir, healthy);
    }
    assert CheckedAt(w.index, r.w.index, meta, r.meta);
    ConcludedRecord(cfg, r.w, SlotOf(l), meta, r.meta, i);
    if !r.s.Crashed? {
      var end := Concluded(ChecksumFromStorage(cfg, r.w, SlotOf(l), meta.checksum, SaveFor(meta)), r.meta, i);
      CheckedTrans(w.index, r.w.index, end.w.index, meta, r.meta, end.meta);
    }
  }

  lemma CheckedOneRecord(cfg: Config, w: World, meta: Meta, i: nat, force: bool)
    requires i < |meta.locators| && DistinctBackends(meta)
    ensures var r := CheckOne(cfg, w, meta, i, force); CheckedAt(w.index, r.w.index, meta, r.meta)
  {
    var l := meta.locators[i];
    var v := ChecksumFromStorage(cfg, w, SlotOf(l), meta.checksum, SaveFor(meta));
    VerifyFacts(cfg, w, SlotOf(l), meta.checksum, SaveFor(meta));
    RepairRecord(cfg, v.w, meta, i);
    ConcludedRecord(cfg, w, SlotOf(l), meta, meta, i);
  }

  lemma {:induction false} CheckedRecords(cfg: Config, w: World, meta: Meta, i: nat, n: nat, force: bool)
    requires i <= n && DistinctBackends(meta)
    ensures var r := CheckFrom(cfg, w, meta, i, n, force); CheckedAt(w.index, r.w.index, meta, r.meta)
    decreases n - i
  {
    if i < n && i < |meta.locators| {
      var r := CheckOne(cfg, w, meta, i, force);
      CheckedOneRecord(cfg, w, meta, i, force);
      if r.s.Done? {
        CheckedRecords(cfg, r.w, r.meta, i + 1, n, force);
        var all := CheckFrom(cfg, r.w, r.meta, i + 1, n, force);
        CheckedTrans(w.index, r.w.index, all.w.index, meta, r.meta, all.meta);
      }
    }
  }

  /** The index write behind the loop of a check. */
  lemma CheckWrites(index: map<int, Meta>, m0: Meta, healthy: bool, loop: Checking)
    requires m0.id in index && index[m0.id] == m0 && CheckedAt(index, loop.w.index, m0.(healthy := healthy), loop.meta)
    ensures var r := IndexPut(loop.w, loop.meta);
      && OnlyRecord(index, r.w.index, m0.id)
      && (m0.id in r.w.index ==> SameArchive(m0, r.w.index[m0.id])
                                 && (r.w.index[m0.id] == m0 || DistinctBackends(r.w.index[m0.id])))
      && (r.s.Done? ==> m0.id in r.w.index && r.w.index[m0.id].healthy == healthy)
  {
    PutRecord(loop.w, loop.meta);
    OnlyRecordTrans(index, loop.w.index, IndexPut(loop.w, loop.meta).w.index, m0.id);
  }

  /** A check that gets to its loop, and any other. */
  lemma CheckCases(cfg: Config, w: World, id: int, force: bool)
    ensures var r := Check(cfg, w, id, force);
      || (r.w.index == w.index && !r.s.Done?)
      || (id in w.index && ValidMeta(w.index[id])
          && var m0 := w.index[id];
             var local := ChecksumFromFile(cfg, Probe(w).w, m0.path, m0.checksum);
             var loop := CheckFrom(cfg, local.w, m0.(healthy := local.v.Healthy?), 0, |m0.locators|, force);
             && (local.v.Healthy? <==> FileIntact(cfg, w, m0.path, m0.checksum)) && local.w.index == w.index
             && r == if loop.s.Done? then IndexPut(loop.w, loop.meta) else Out(loop.w, loop.s))
  {
  }

  /** A check changes one record, and of that at most health and locators. One that succeeds records whether the local file
      is intact; one that stops before may also leave no record. */
  lemma CheckRecords(cfg: Config, w: World, id: int, force: bool)
    requires id in w.index ==> w.index[id].id == id && DistinctBackends(w.index[id])
    ensures var r := Check(cfg, w, id, force);
      && OnlyRecord(w.index, r.w.index, id)
      && (id in r.w.index ==> id in w.index && SameArchive(w.index[id], r.w.index[id]) && DistinctBackends(r.w.index[id]))
      && (r.s.Done? ==> id in w.index && ValidMeta(w.index[id]) && id in r.w.index)
      && (r.s.Done? ==> (r.w.index[id].healthy <==> FileIntact(cfg, w, w.index[id].path, w.index[id].checksum)))
  {
    CheckCases(cfg, w, id, force);
    if id in w.index {
      var m0 := w.index[id];
      var local := ChecksumFromFile(cfg, Probe(w).w, m0.path, m0.checksum);
      var m1 := m0.(healthy := local.v.Healthy?);
      CheckedRecords(cfg, local.w, m1, 0, |m1.locators|, force);
      if local.w.index == w.index { CheckWrites(w.index, m0, local.v.Healthy?, CheckFrom(cfg, local.w, m1, 0, |m1.locators|, force)); }
    }
  }

  // ---- archive ----

  /** The old record without its own history, behind the records before it. */
  function Lineup(index: map<int, Meta>, id: int): seq<Meta> {
    if id in index then index[id].history + [index[id].(history := [])] else []
  }

  /** The record of the file now at dest, whatever replicas it has. */
  ghost predicate Packed(cfg: Config, index: map<int, Meta>, id: int, dest: Name, bytes: Bytes, m: Meta) {
    && m.id == id && m.path == dest && m.healthy
    && m.checksum == Checksum(Md5, cfg.digest(Md5, bytes))
    && m.version == cfg.parseVersion(dest.base)
    && m.history == Lineup(index, id)
    && DistinctBackends(m)
  }

  /** The locators of a pack that has replicated to the given backends: one each, healthy, in the order of first mention. */
  ghost predicate ReplicaOn(ls: seq<Locator>, backends: seq<string>, key: Name) {
    && (forall i, j :: 0 <= i < j < |ls| ==> ls[i].backend != ls[j].backend)
    && (forall i :: 0 <= i < |ls| ==> ls[i] == Locator(ls[i].backend, key, true) && ls[i].backend in backends)
    && (forall b :: b in backends ==> exists i :: 0 <= i < |ls| && ls[i].backend == b)
  }

  lemma ReplicaOnNext(meta: Meta, m: Meta, before: seq<string>, backend: string, prefix: string)
    requires ReplicaOn(meta.locators, before, Name(prefix, meta.path.base)) && Entered(meta, m, backend, prefix, true)
    ensures ReplicaOn(m.locators, before + [backend], Name(prefix, meta.path.base)) && DistinctBackends(m)
  {
    var l := Locator(backend, Name(prefix, meta.path.base), true);
    EnteredDistinct(meta, m, backend, prefix, true);
    assert forall b :: b in before + [backend] <==> b in before || b == backend;
    if i :| 0 <= i < |meta.locators| && meta.locators[i].backend == backend {
      assert m.locators == meta.locators[i := l];
      forall b | b in before + [backend] ensures exists i :: 0 <= i < |m.locators| && m.locators[i].backend == b {
        if b == backend { assert m.locators[i].backend == b; } else {
          var k :| 0 <= k < |meta.locators| && meta.locators[k].backend == b;
          assert m.locators[k].backend == b;
        }
      }
    } else {
      assert m.locators == meta.locators + [l];
      assert m.locators[|meta.locators|].backend == backend;
      forall b | b in before ensures exists i :: 0 <= i < |m.locators| && m.locators[i].backend == b {
        var k :| 0 <= k < |meta.locators| && meta.locators[k].backend == b;
        assert m.locators[k].backend == b;
      }
    }
  }

  /** The record m of a pack, to which replicas were added. */
  ghost predicate PackedAt(index: map<int, Meta>, m: Meta) {
    m.id in index ==> index[m.id].(locators := m.locators) == m && DistinctBackends(index[m.id])
  }

  /** What the replications behind a pack make of the record: the replicas are added to it. */
  lemma {:induction false} PackReplicas(cfg: Config, w: World, meta: Meta, before: seq<string>, backends: seq<string>, prefix: string)
    requires meta.id in w.index && w.index[meta.id] == meta
    requires ReplicaOn(meta.locators, before, Name(prefix, meta.path.base))
    ensures var r := ReplicateTo(cfg, w, meta, backends, prefix);
      && r.w.files == w.files && OnlyRecord(w.index, r.w.index, meta.id)
      && PackedAt(r.w.index, meta)
      && (r.s.Done? ==> meta.id in r.w.index
                        && ReplicaOn(r.w.index[meta.id].locators, before + backends, Name(prefix, meta.path.base)))
    decreases |backends|
  {
    if backends == [] {
      assert before + backends == before;
    } else {
      var r := Replicate(cfg, w, meta, backends[0], prefix);
      ReplicationRecord(cfg, w, meta, backends[0], prefix);
      forall m, healthy | Entered(meta, m, backends[0], prefix, healthy) ensures DistinctBackends(m) {
        EnteredDistinct(meta, m, backends[0], prefix, healthy);
      }
      assert before + [backends[0]] + backends[1..] == before + backends;
      if r.s.Done? {
        ReplicaOnNext(meta, r.meta, before, backends[0], prefix);
        PackReplicas(cfg, r.w, r.meta, before + [backends[0]], backends[1..], prefix);
        OnlyRecordTrans(w.index, r.w.index, ReplicateTo(cfg, r.w, r.meta, backends[1..], prefix).w.index, meta.id);
      }
    }
  }

  /** Publishing the record m of a new archive. */
  lemma PublishRecords(cfg: Config, w: World, m: Meta, backends: seq<string>, prefix: string)
    requires m.locators == []
    ensures var r := Publish(cfg, w, m, backends, prefix);
      && r.w.files == w.files && OnlyRecord(w.index, r.w.index, m.id)
      && (SameAt(w.index, r.w.index, m.id) || PackedAt(r.w.index, m))
      && (r.s.Done? ==> m.id in r.w.index && PackedAt(r.w.index, m))
      && (r.s.Done? ==> ReplicaOn(r.w.index[m.id].locators, backends, Name(prefix, m.path.base)))
  {
    var put := Record(w, m);
    PutRecord(w, m);
    if put.s.Done? {
      PackReplicas(cfg, put.w, m, [], backends, prefix);
      assert [] + backends == backends;
      OnlyRecordTrans(w.index, put.w.index, ReplicateTo(cfg, put.w, m, backends, prefix).w.index, m.id);
    }
  }

  /** The record m of a new archive says what the file at its path is; so does every record with more replicas. */
  lemma PackedRecord(cfg: Config, index: map<int, Meta>, index': map<int, Meta>, id: int, dest: Name, bytes: Bytes, m: Meta)
    requires Packed(cfg, index, id, dest, bytes, m) && PackedAt(index', m) && id in index'
    ensures Packed(cfg, index, id, dest, bytes, index'[id])
  {
  }

  ghost predicate PacksRecord(cfg: Config, index: map<int, Meta>, w: World, id: int, dest: Name) {
    id in w.index && dest in w.files && Packed(cfg, index, id, dest, w.files[dest], w.index[id])
  }

  /** What a pack makes of the index. */
  ghost predicate PackedIn(cfg: Config, index: map<int, Meta>, r: Out, id: int, dest: Name, backends: seq<string>, prefix: string) {
    && OnlyRecord(index, r.w.index, id)
    && (id in r.w.index ==> SameAt(index, r.w.index, id) || PacksRecord(cfg, index, r.w, id, dest))
    && (r.s.Done? ==> id != 0 && dest.base != "" && PacksRecord(cfg, index, r.w, id, dest))
    && (r.s.Done? ==> ReplicaOn(r.w.index[id].locators, backends, Name(prefix, dest.base)))
  }

  lemma PublishedRecord(cfg: Config, w: World, m: Meta, backends: seq<string>, prefix: string)
    requires m.id != 0 && m.path.base != "" && m.locators == [] && m.path in w.files && Packed(cfg, w.index, m.id, m.path, w.files[m.path], m)
    ensures PackedIn(cfg, w.index, Publish(cfg, w, m, backends, prefix), m.id, m.path, backends, prefix)
  {
    var r := Publish(cfg, w, m, backends, prefix);
    PublishRecords(cfg, w, m, backends, prefix);
    if m.id in r.w.index && PackedAt(r.w.index, m) {
      PackedRecord(cfg, w.index, r.w.index, m.id, m.path, w.files[m.path], m);
    }
  }

  /** The file that a pack writes, and the index it has not touched yet. */
  lemma PackFile(w: World, dest: Name)
    ensures var p := Pack(w, dest); p.w.index == w.index && (p.s.Done? ==> dest in p.w.files)
  {
  }

  /** A pack that gets to its index write, and any other. */
  lemma PackCases(cfg: Config, w: World, id: int, dest: Name, backends: seq<string>, prefix: string)
    ensures var pack, r := Pack(Probe(w).w, dest), Archive(cfg, w, id, dest, backends, prefix);
      var hash := Probe(pack.w);
      || (r.w.index == w.index && !r.s.Done?)
      || (pack.s.Done? && dest in hash.w.files && id != 0 && dest.base != ""
          && r == Publish(cfg, hash.w, Fresh(cfg, hash.w, id, dest, HistoryOf(w, id)), backends, prefix))
  {
    PackFile(Probe(w).w, dest);
  }

  /** A pack changes one record: the new one stands for the file now at its destination, its history continues the old
      record, and after success it has one healthy replica on each backend. A pack that stops before its end leaves the old
      record, the new one, or none. */
  lemma PackRecords(cfg: Config, w: World, id: int, dest: Name, backends: seq<string>, prefix: string)
    ensures PackedIn(cfg, w.index, Archive(cfg, w, id, dest, backends, prefix), id, dest, backends, prefix)
  {
    var hash := Probe(Pack(Probe(w).w, dest).w).w;
    PackFile(Probe(w).w, dest);
    PackCases(cfg, w, id, dest, backends, prefix);
    if dest in hash.files && id != 0 && dest.base != "" {
      PublishedRecord(cfg, hash, Fresh(cfg, hash, id, dest, HistoryOf(w, id)), backends, prefix);
    }
  }

  // ---- runs ----

  /** Records under their own ids, with one locator a backend and a history of records without histories. */
  ghost predicate Orderly(m: Meta, id: int) {
    m.id == id && DistinctBackends(m) && forall k :: 0 <= k < |m.history| ==> m.history[k].id == id && m.history[k].history == []
  }

  ghost predicate AllOrderly(index: map<int, Meta>) {
    forall id :: id in index ==> Orderly(index[id], id)
  }

  /** The ids a call names, without repetition where it names several. */
  ghost predicate Names(op: Op, id: int) {
    match op
    case ArchiveOp(_, a, _, _, _) => id == a
    case CheckOp(_, a, _) => id == a
    case ReplicateOp(_, ids, _, _) => id in ids
    case RetainOp(_, ids) => id in ids
  }

  ghost predicate NamesOnce(op: Op) {
    (op.ReplicateOp? || op.RetainOp?) ==> Distinct(op.ids)
  }

  lemma {:induction false} ListedFromIndex(w: World, ids: seq<int>)
    requires Distinct(ids) && AllOrderly(w.index)
    ensures FromIndex(w.index, Listed(w, ids)) && AllDistinct(Listed(w, ids))
    ensures forall i :: 0 <= i < |Listed(w, ids)| ==> Listed(w, ids)[i].id in ids
    decreases |ids|
  {
    if ids != [] {
      ListedFromIndex(w, ids[1..]);
      var rest := Listed(w, ids[1..]);
      assert ids[0] in w.index ==> Orderly(w.index[ids[0]], ids[0]);
      forall i | 0 <= i < |rest| ensures rest[i].id in ids && rest[i].id != ids[0] {
        var j :| 0 <= j < |ids[1..]| && ids[1..][j] == rest[i].id;
        assert ids[j + 1] == rest[i].id;
      }
    }
  }

  /** The record of an id after a call: none, the same archive, or the one just packed. */
  ghost predicate RecordAfter(cfg: Config, index: map<int, Meta>, w': World, op: Op, id: int) {
    && (!Names(op, id) ==> SameAt(index, w'.index, id))
    && (id in w'.index ==>
          || (id in index && SameArchive(index[id], w'.index[id]) && DistinctBackends(w'.index[id]))
          || (op.ArchiveOp? && id == op.id && PacksRecord(cfg, index, w', id, op.dest)))
  }

  lemma ReplicationAfter(cfg: Config, w: World, op: Op, id: int)
    requires op.ReplicateOp? && NamesOnce(op) && AllOrderly(w.index)
    ensures RecordAfter(cfg, w.index, Apply(cfg, w, op), op, id)
  {
    var w0 := w.(tape := op.tape);
    var list := Probe(w0);
    var items := Listed(w0, op.ids);
    ListedFromIndex(w0, op.ids);
    assert id in w.index ==> Orderly(w.index[id], id);
    if list.s.Done? {
      ReplicationRecords(cfg, list.w, items, op.backend, op.prefix, id);
      forall m, healthy | id in w.index && Entered(w.index[id], m, op.backend, op.prefix, healthy)
        ensures DistinctBackends(m)
      {
        EnteredDistinct(w.index[id], m, op.backend, op.prefix, healthy);
      }
    }
  }

  lemma RetentionAfter(cfg: Config, w: World, op: Op, id: int)
    requires op.RetainOp? && NamesOnce(op) && AllOrderly(w.index)
    ensures RecordAfter(cfg, w.index, Apply(cfg, w, op), op, id)
  {
    var w0 := w.(tape := op.tape);
    var list := Probe(w0);
    ListedFromIndex(w0, op.ids);
    assert id in w.index ==> Orderly(w.index[id], id);
    if list.s.Done? { RetentionRecords(list.w, Listed(w0, op.ids), id); }
  }

  /** Whatever fails and wherever the process dies: a call changes only the records of the ids it names, a record keeps its
      path, checksum, version and history, and a pack puts the old record behind its history. */
  lemma CallRecords(cfg: Config, w: World, op: Op, id: int)
    requires NamesOnce(op) && AllOrderly(w.index)
    ensures RecordAfter(cfg, w.index, Apply(cfg, w, op), op, id)
  {
    var w0 := w.(tape := op.tape);
    assert id in w.index ==> Orderly(w.index[id], id);
    match op {
      case ArchiveOp(_, a, dest, backends, prefix) => PackRecords(cfg, w0, a, dest, backends, prefix);
      case CheckOp(_, a, force) =>
        assert a in w.index ==> Orderly(w.index[a], a);
        CheckRecords(cfg, w0, a, force);
      case ReplicateOp(_, _, _, _) => ReplicationAfter(cfg, w, op, id);
      case RetainOp(_, _) => RetentionAfter(cfg, w, op, id);
    }
  }

  lemma StaysOrderly(cfg: Config, index: map<int, Meta>, w': World, op: Op, id: int)
    requires RecordAfter(cfg, index, w', op, id) && (id in index ==> Orderly(index[id], id)) && id in w'.index
    ensures Orderly(w'.index[id], id)
  {
  }

  /** Over every run, with any failures, faults and crashes, the records stay orderly. */
  lemma {:induction false} RunOrderly(cfg: Config, w: World, ops: seq<Op>)
    requires AllOrderly(w.index) && forall i :: 0 <= i < |ops| ==> NamesOnce(ops[i])
    ensures AllOrderly(Run(cfg, w, ops).index)
    decreases |ops|
  {
    if ops != [] {
      var w1 := Apply(cfg, w, ops[0]);
      forall id | id in w1.index ensures Orderly(w1.index[id], id) {
        CallRecords(cfg, w, ops[0], id);
        StaysOrderly(cfg, w.index, w1, ops[0], id);
      }
      RunOrderly(cfg, w1, ops[1..]);
    }
  }
}
