/** The archive helper step by step: the disk, the backends and the index are updated in place, and every method
    is proved to do what its function in ReplicaModel says. */
module ReplicaHelper {
  import opened ReplicaModel
  import opened ReplicaRecords

  lemma UploadRound(cfg: Config, w: World, slot: Slot, sum: Checksum, tries: nat, err: bool)
    ensures Upload(cfg, w, slot, sum, tries + 1, err)
            == match Try(cfg, w, slot, sum)
               case Stop(w1, end) => Uploaded(w1, end)
               case Again(w1, err1) => Upload(cfg, w1, slot, sum, tries, err1)
  {
  }

  class Helper {
    const cfg: Config
    var files: map<Name, Bytes>
    var objects: map<Slot, Obj>
    var index: map<int, Meta>
    var tape: seq<Event>
    ghost var packed: map<int, Copy>
    ghost var faults: set<Fault>
    /** How many uploads were started, and how many rewrites of verified objects. */
    ghost var uploads: nat
    ghost var rewrites: nat

    ghost function Now(): World
      reads this
    {
      World(files, objects, index, packed, tape, faults)
    }

    constructor (cfg: Config)
      ensures this.cfg == cfg && Now() == World(map[], map[], map[], map[], [], {})
    {
      this.cfg := cfg;
      files, objects, index, tape := map[], map[], map[], [];
      packed, faults := map[], {};
      uploads, rewrites := 0, 0;
    }

    /** The next event of the environment. */
    method Await() returns (e: Event)
      modifies this`tape
      ensures e == Peek(old(Now())) && Now() == Pop(old(Now()))
    {
      e := PowerCut;
      if tape != [] {
        e, tape := tape[0], tape[1..];
      }
    }

    method Read() returns (s: Status)
      modifies this`tape
      ensures Probe(old(Now())) == Out(Now(), s)
    {
      var e := Await();
      s := StatusOf(e);
    }

    method PutIndex(m: Meta) returns (s: Status)
      modifies this`tape, this`index
      ensures IndexPut(old(Now()), m) == Out(Now(), s)
    {
      var e := Await();
      index := Written(index, m.id, m, LeftOf(e));
      s := StatusOf(e);
    }

    method PutObject(slot: Slot) returns (s: Status)
      modifies this`tape, this`objects
      ensures BackendPut(old(Now()), slot) == Out(Now(), s)
    {
      var e := Await();
      objects := Written(objects, slot, Obj(e.bytes, e.tag), LeftOf(e));
      s := StatusOf(e);
    }

    ghost method Raise(f: Fault, raised: bool)
      modifies this`faults
      ensures Now() == Flag(old(Now()), f, raised)
    {
      if raised { faults := faults + {f}; }
    }

    method Fetch(bytes: Bytes, save: SavePath, ghost sum: Checksum) returns (s: Status)
      modifies this`tape, this`files, this`faults
      ensures Download(cfg, old(Now()), bytes, save, sum) == Out(Now(), s)
    {
      var e := Await();
      s := StatusOf(e);
      if save.At? {
        files := Written(files, save.path, if s.Done? then bytes else e.bytes, e.left);
        Raise(DirtyDownload, save.path in files && !FileIntact(cfg, Now(), save.path, sum));
      }
    }

    method VerifyObject(slot: Slot, sum: Checksum, save: SavePath) returns (v: Verdict)
      modifies this
      ensures ChecksumFromStorage(cfg, old(Now()), slot, sum, save) == Verified(Now(), v)
      ensures uploads == old(uploads) && rewrites <= old(rewrites) + 1 && (v.Unhealthy? ==> rewrites == old(rewrites))
    {
      var s := Read();
      if !s.Done? { return if s.Crashed? then Died else ReadError; }
      if slot !in objects { return Unhealthy; }
      var o := objects[slot];
      if TagMatches(cfg, o, sum) && save.Nowhere? { return Healthy; }
      s := Fetch(o.bytes, save, sum);
      if !s.Done? { return if s.Crashed? then Died else ReadError; }
      if !Intact(cfg, o.bytes, sum) { return Unhealthy; }
      if slot.backend in cfg.canRePut {
        rewrites := rewrites + 1;
        s := PutObject(slot);
        Raise(TornRePut, !ObjectIntact(cfg, Now(), slot, sum));
        if s.Crashed? { return Died; }
      }
      return Healthy;
    }

    /** One round of the upload loop. */
    method TryUpload(slot: Slot, sum: Checksum) returns (stop: bool, end: UploadEnd, err: bool)
      modifies this
      ensures Try(cfg, old(Now()), slot, sum) == if stop then Stop(Now(), end) else Again(Now(), err)
      ensures uploads <= old(uploads) + 1 && rewrites <= old(rewrites) + (if stop then 1 else 0)
      ensures !stop ==> uploads == old(uploads) + 1
      ensures stop ==> !end.Unverified?
    {
      stop, end, err := true, GaveUp, false;
      var s := Read();
      if !s.Done? { return true, if s.Crashed? then Killed else GaveUp, false; }
      uploads := uploads + 1;
      s := PutObject(slot);
      if s.Crashed? { return true, Killed, false; }
      if s.Failed? { return false, GaveUp, true; }
      var o := objects[slot];
      if TagMatches(cfg, o, sum) { return true, Stored, false; }
      if !o.tag.NoTag? && sum.algorithm.Md5? { return false, GaveUp, false; }
      var v := VerifyObject(slot, sum, Nowhere);
      match v {
        case Died => return true, Killed, false;
        case ReadError => return true, GaveUp, false;
        case Healthy => return true, Stored, false;
        case Unhealthy => return false, GaveUp, false;
      }
    }

    /** The three-try upload loop. At most three uploads are started, and at most one rewrite, which ends the loop; it gives
        up unverified only after three. */
    method UploadWithRetry(slot: Slot, sum: Checksum) returns (end: UploadEnd)
      modifies this
      ensures Upload(cfg, old(Now()), slot, sum, 3, false) == Uploaded(Now(), end)
      ensures uploads <= old(uploads) + 3 && rewrites <= old(rewrites) + 1
      ensures end.Unverified? ==> uploads == old(uploads) + 3
    {
      end := UploadRounds(slot, sum, 3);
    }

    /** The loop for any number of rounds: err is the error of the last one. */
    method UploadRounds(slot: Slot, sum: Checksum, rounds: nat) returns (end: UploadEnd)
      modifies this
      ensures Upload(cfg, old(Now()), slot, sum, rounds, false) == Uploaded(Now(), end)
      ensures uploads <= old(uploads) + rounds && rewrites <= old(rewrites) + 1
      ensures end.Unverified? ==> uploads == old(uploads) + rounds
    {
      var err := false;
      ghost var all := Upload(cfg, Now(), slot, sum, rounds, false);
      for tries := rounds downto 0
        invariant uploads == old(uploads) + rounds - tries && rewrites <= old(rewrites)
        invariant all == Upload(cfg, Now(), slot, sum, tries, err)
      {
        var stop;
        stop, end, err := UploadOnce(slot, sum, tries, err);
        if stop { return; }
      }
      return if err then GaveUp else Unverified;
    }

    /** A round with tries more to come. */
    method UploadOnce(slot: Slot, sum: Checksum, ghost tries: nat, ghost failed: bool)
      returns (stop: bool, end: UploadEnd, err: bool)
      modifies this
      ensures Upload(cfg, old(Now()), slot, sum, tries + 1, failed)
              == if stop then Uploaded(Now(), end) else Upload(cfg, Now(), slot, sum, tries, err)
      ensures uploads <= old(uploads) + 1 && rewrites <= old(rewrites) + (if stop then 1 else 0)
      ensures !stop ==> uploads == old(uploads) + 1
      ensures stop ==> !end.Unverified?
    {
      UploadRound(cfg, Now(), slot, sum, tries, failed);
      stop, end, err := TryUpload(slot, sum);
    }

    method ReplicateRecord(meta: Meta, backend: string, prefix: string) returns (m: Meta, s: Status)
      modifies this
      ensures Replicate(cfg, old(Now()), meta, backend, prefix) == Replication(Now(), m, s)
      ensures uploads <= old(uploads) + 3 && rewrites <= old(rewrites) + 1
    {
      m := meta;
      if !ValidMeta(m) || !ValidBase(m.path.base) { return m, Failed; }
      m := Marked(m, backend, prefix);
      s := PutIndex(m);
      if !s.Done? { return; }
      if m.path !in files { return m, Failed; }
      s := Read();
      if !s.Done? { return; }
      var end := UploadWithRetry(Slot(backend, Name(prefix, m.path.base)), m.checksum);
      if end.Killed? { return m, Crashed; }
      if end.GaveUp? { return m, Failed; }
      Raise(Blind, end.Unverified?);
      m := Confirmed(m, backend, prefix);
      s := PutIndex(m);
    }

    method ReplicateMore(items: seq<Meta>, backend: string, prefix: string) returns (s: Status)
      modifies this
      ensures ReplicateAll(cfg, old(Now()), items, backend, prefix) == Out(Now(), s)
    {
      for i := 0 to |items|
        invariant ReplicateAll(cfg, old(Now()), items, backend, prefix)
               == ReplicateAll(cfg, Now(), items[i..], backend, prefix)
      {
        assert items[i..][0] == items[i] && items[i..][1..] == items[i + 1..];
        var m, r := ReplicateRecord(items[i], backend, prefix);
        if !r.Done? { return r; }
      }
      return Done;
    }

    /** Remove the local file of each listed record at its first healthy locator, and count them. */
    method ApplyRetention(items: seq<Meta>) returns (n: nat, s: Status)
      modifies this
      ensures Retain(old(Now()), items) == Out(Now(), s)
      ensures FromIndex(old(index), items) ==> forall id :: RetainedAt(old(index), index, items, id, s.Done?)
      ensures s.Done? ==> n == |Due(items, |items|)| && forall i :: 0 <= i < |items| ==> items[i].path.base != ""
    {
      n := 0;
      ghost var before := Now();
      ghost var after := Retain(before, items);
      RetentionIndex(before, items);
      for i := 0 to |items|
        invariant after == Retain(Now(), items[i..])
        invariant n == |Due(items, i)| && forall k :: 0 <= k < i ==> items[k].path.base != ""
      {
        DueNext(items, i);
        assert items[i..][0] == items[i] && items[i..][1..] == items[i + 1..];
        if items[i].path.base == "" { return n, Failed; }
        var removed;
        removed, s := RetainRecord(items[i]);
        if !s.Done? { return; }
        if removed { n := n + 1; }
      }
      return n, Done;
    }

    /** One record: removed tells whether it has a healthy locator. */
    method RetainRecord(meta: Meta) returns (removed: bool, s: Status)
      modifies this
      ensures RetainOne(old(Now()), meta) == Out(Now(), s)
      ensures removed <==> HasHealthy(meta.locators)
    {
      var k := 0;
      while k < |meta.locators| && !meta.locators[k].healthy
        invariant k <= |meta.locators|
        invariant forall j :: 0 <= j < k ==> !meta.locators[j].healthy
      {
        k := k + 1;
      }
      removed, s := k < |meta.locators|, Done;
      if removed {
        assert meta.locators[k].healthy;
        s := RemoveAndRecord(meta);
      }
    }

    method RemoveAndRecord(meta: Meta) returns (s: Status)
      requires HasHealthy(meta.locators)
      modifies this
      ensures RetainOne(old(Now()), meta) == Out(Now(), s)
    {
      var e := Await();
      var missing := meta.path !in files;
      if !LeftOf(e).Old? { files := files - {meta.path}; }
      s := if missing && !e.dies then Done else StatusOf(e);
      if !s.Done? { return; }
      if !ValidMeta(meta) { return Failed; }
      s := PutIndex(meta.(healthy := false));
    }

    method CheckRecord(id: int, force: bool) returns (s: Status)
      modifies this
      ensures Check(cfg, old(Now()), id, force) == Out(Now(), s)
    {
      s := Read();
      if !s.Done? { return; }
      if id !in index { return Failed; }
      var meta := index[id];
      if !ValidMeta(meta) { return Failed; }
      var local := Read();
      if !local.Done? { return local; }
      meta := meta.(healthy := meta.path in files && Intact(cfg, files[meta.path], meta.checksum));
      meta, s := CheckLocators(meta, force);
      if !s.Done? { return; }
      s := PutIndex(meta);
    }

    method CheckLocators(meta: Meta, force: bool) returns (m: Meta, s: Status)
      modifies this
      ensures CheckFrom(cfg, old(Now()), meta, 0, |meta.locators|, force) == Checking(Now(), m, s)
    {
      m, s := meta, Done;
      var n := |meta.locators|;
      var i := 0;
      while i < n && i < |m.locators|
        invariant i <= n && s.Done?
        invariant CheckFrom(cfg, old(Now()), meta, 0, n, force) == CheckFrom(cfg, Now(), m, i, n, force)
      {
        m, s := CheckLocator(m, i, force);
        if !s.Done? { return; }
        i := i + 1;
      }
    }

    method CheckLocator(meta: Meta, i: nat, force: bool) returns (m: Meta, s: Status)
      requires i < |meta.locators|
      modifies this
      ensures CheckOne(cfg, old(Now()), meta, i, force) == Checking(Now(), m, s)
    {
      m := meta;
      var l := meta.locators[i];
      if (l.healthy && !force) || l.backend !in cfg.registered { return m, Done; }
      var save := SaveFor(meta);
      var v := VerifyObject(SlotOf(l), meta.checksum, save);
      if meta.healthy && v.Unhealthy? {
        var r;
        m, r := ReplicateRecord(meta, l.backend, l.key.dir);
        if r.Crashed? { return m, Crashed; }
        v := VerifyObject(SlotOf(l), meta.checksum, save);
      }
      if v.Died? { return m, Crashed; }
      if v.ReadError? { return m, Failed; }
      return SetHealth(m, i, v.Healthy?), Done;
    }

    method ArchiveDir(id: int, dest: Name, backends: seq<string>, prefix: string) returns (s: Status)
      modifies this
      ensures Archive(cfg, old(Now()), id, dest, backends, prefix) == Out(Now(), s)
    {
      if dest.base == "" { return Failed; }
      s := Read();
      if !s.Done? { return; }
      var history := if id in index then index[id].history + [index[id].(history := [])] else [];
      ghost var w := Now();
      var e := Await();
      files := Written(files, dest, e.bytes, LeftOf(e));
      Raise(SamePath, !LeftOf(e).Old? && exists j :: j in w.packed && w.packed[j].path == dest);
      assert Pack(w, dest) == Out(Now(), StatusOf(e));
      s := StatusOf(e);
      if !s.Done? { return; }
      s := Read();
      if !s.Done? { return; }
      if id == 0 { return Failed; }
      var sum := Checksum(Md5, cfg.digest(Md5, files[dest]));
      var meta := Meta(id, dest, sum, cfg.parseVersion(dest.base), history, [], true);
      s := PublishRecord(meta, backends, prefix);
    }

    method PublishRecord(meta: Meta, backends: seq<string>, prefix: string) returns (s: Status)
      modifies this
      ensures Publish(cfg, old(Now()), meta, backends, prefix) == Out(Now(), s)
    {
      ghost var applied := LeftOf(Peek(Now())).New?;
      s := PutIndex(meta);
      if applied { packed := packed[meta.id := Copy(meta.path, meta.checksum)]; }
      if !s.Done? { return; }
      ghost var w := Now();
      var m := meta;
      for i := 0 to |backends|
        invariant ReplicateTo(cfg, w, meta, backends, prefix) == ReplicateTo(cfg, Now(), m, backends[i..], prefix)
      {
        assert backends[i..][0] == backends[i] && backends[i..][1..] == backends[i + 1..];
        m, s := ReplicateRecord(m, backends[i], prefix);
        if !s.Done? { return; }
      }
      return Done;
    }
  }
}
