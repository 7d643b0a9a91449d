/** Each fault, alone, is enough to lose the last intact copy: one run per fault. */
module ReplicaLoss {
  import opened ReplicaModel
  import opened ReplicaSafety
  import opened ReplicaFaults

  const File := Name("archives", "1.cocoma")
  const Key := Name("p", "1.cocoma")
  const Intent := Checksum(Md5, "data")

  function Identity(a: Algorithm, b: Bytes): string { b }
  function One(name: string): int { 1 }
  function First(name: string): nat { 1 }

  /** Backends a and b are registered; a rewrites objects it has verified. Digests are the bytes themselves. */
  const Demo := Config(Identity, {"a"}, {"a", "b"}, One, First)

  const Empty := World(map[], map[], map[], map[], [], {})

  function Good(bytes: Bytes, tag: Tag): Event { Event(true, false, New, bytes, tag) }
  const Fine := Good("data", Md5Tag)

  function Record1(locators: seq<Locator>, healthy: bool): Meta {
    Meta(1, File, Intent, 1, [], locators, healthy)
  }

  function Disk(files: map<Name, Bytes>, objects: map<Slot, Obj>, m: Meta, tape: seq<Event>, faults: set<Fault>): World {
    World(files, objects, map[1 := m], map[1 := Copy(File, Intent)], tape, faults)
  }

  ghost predicate Lost(w: World) {
    1 in w.packed && !HasCopy(Demo, w, 1)
  }

  lemma EmptyIsSafe()
    ensures Safe(Demo, Empty)
  {
  }

  const Packed := ArchiveOp([Fine, Fine, Fine, Fine], 1, File, [], "p")

  lemma PackedWorld()
    ensures Apply(Demo, Empty, Packed) == Disk(map[File := "data"], map[], Record1([], true), [], {})
  {
    var w0 := Empty.(tape := Packed.tape);
    var w1 := Probe(w0).w;
    assert w1.tape == [Fine, Fine, Fine];
    var w2 := Pack(w1, File).w;
    assert w2.tape == [Fine, Fine];
    assert w2.files == map[File := "data"];
    var w3 := Probe(w2).w;
    assert w3.tape == [Fine];
    assert Archive(Demo, w0, 1, File, [], "p") == Publish(Demo, w3, Fresh(Demo, w3, 1, File, []), [], "p");
  }

  const ToDisk := map[File := "data"]

  // ---- three mismatches in a row are recorded as a healthy replica ----

  const BlindUpload := ReplicateOp([Quiet] + BlindTape("junk"), [1], "b", "p")
  const Retention := RetainOp([Fine, Fine, Fine], [1])

  const Junk := Obj("junk", NoTag)
  const SlotA := Slot("a", Key)
  const SlotB := Slot("b", Key)

  /** The listing of the single record. */
  lemma OneListed(w: World)
    requires 1 in w.index
    ensures Listed(w, [1]) == [w.index[1]]
  {
    assert [1][1..] == [];
    assert Listed(w, [1][1..]) == [];
  }

  /** Retention over the single record when its first locator is recorded healthy and the file can be removed. */
  lemma Retained(objects: map<Slot, Obj>, locators: seq<Locator>, healthy: bool, faults: set<Fault>)
    requires locators != [] && locators[0].healthy
    ensures Apply(Demo, Disk(ToDisk, objects, Record1(locators, healthy), [], faults), Retention)
         == Disk(map[], objects, Record1(locators, false), [], faults)
  {
    var m := Record1(locators, healthy);
    var w0 := Disk(ToDisk, objects, m, Retention.tape, faults);
    OneListed(w0);
    var w1 := Disk(ToDisk, objects, m, [Fine, Fine], faults);
    assert Probe(w0) == Out(w1, Done);
    var w2 := Disk(map[], objects, m, [Fine], faults);
    assert Remove(w1, File) == Out(w2, Done);
    var w3 := Disk(map[], objects, Record1(locators, false), [], faults);
    assert IndexPut(w2, m.(healthy := false)) == Out(w3, Done);
    assert RetainOne(w1, m) == Out(w3, Done);
    assert [m][1..] == [];
    assert Retain(w1, [m]) == Retain(w3, []);
  }

  /** Three mismatching uploads beside an intact file end in a record that calls the junk healthy. */
  lemma BlindReplica()
    ensures Apply(Demo, Packed1, BlindUpload)
         == Disk(ToDisk, map[SlotB := Junk], Record1([Locator("b", Key, true)], true), [], {Blind})
  {
    BlindDone(Packed1, Record1([], true));
    ReplicateIsAll(Packed1, BlindTape("junk"), Record1([], true), "b");
  }

  /** The world after the first pack. */
  const Packed1 := Disk(ToDisk, map[], Record1([], true), [], {})

  lemma BlindDone(w: World, m: Meta)
    requires w == Packed1 && m == Record1([], true)
    ensures var r := Replicate(Demo, On(w, BlindTape("junk")), m, "b", "p");
      r.s.Done? && r.w == Disk(ToDisk, map[SlotB := Junk], Record1([Locator("b", Key, true)], true), [], {Blind})
  {
    NewLocator("b");
    BlindWorld(w, Record1([Locator("b", Key, true)], true));
    BlindReplicates(Demo, w, m, "b", "p", "junk");
  }

  lemma BlindWorld(w: World, m: Meta)
    requires w == Packed1 && m.id == 1
    ensures On(StoredAt(w, SlotB, "junk").(index := w.index[m.id := m], faults := w.faults + {Blind}), [])
         == Disk(ToDisk, map[SlotB := Junk], m, [], {Blind})
  {
  }

  /** The only locator, as a successful replication records it. */
  lemma NewLocator(backend: string)
    ensures Confirmed(Marked(Record1([], true), backend, "p"), backend, "p") == Record1([Locator(backend, Key, true)], true)
  {
    var m1 := Record1([Locator(backend, Key, false)], true);
    assert m1.locators[0].backend == backend;
    assert Marked(Record1([], true), backend, "p") == m1;
  }

  /** A call that replicates the only record. */
  lemma ReplicateIsAll(w: World, tape: seq<Event>, m: Meta, backend: string)
    requires 1 in w.index && w.index[1] == m && Replicate(Demo, On(w, tape), m, backend, "p").s.Done?
    ensures Apply(Demo, w, ReplicateOp([Quiet] + tape, [1], backend, "p")) == Replicate(Demo, On(w, tape), m, backend, "p").w
  {
    Next(w, Quiet, tape);
    OneListed(On(w, [Quiet] + tape));
    ReplicateOne(On(w, tape), m, backend);
  }

  lemma ReplicateOne(w: World, m: Meta, backend: string)
    requires Replicate(Demo, w, m, backend, "p").s.Done?
    ensures ReplicateAll(Demo, w, [m], backend, "p") == Out(Replicate(Demo, w, m, backend, "p").w, Done)
  {
    var r := Replicate(Demo, w, m, backend, "p");
    assert [m][1..] == [];
    assert ReplicateAll(Demo, r.w, [], backend, "p") == Out(r.w, Done);
  }

  /** Pack, three mismatching uploads, retention: the only copy is the junk object. */
  lemma BlindLosesCopy()
    ensures Safe(Demo, Empty)
    ensures var w := Run(Demo, Empty, [Packed, BlindUpload, Retention]); w.faults == {Blind} && Lost(w)
  {
    EmptyIsSafe();
    PackedWorld();
    BlindReplica();
    Retained(map[SlotB := Junk], [Locator("b", Key, true)], true, {Blind});
    var w := Disk(map[], map[SlotB := Junk], Record1([Locator("b", Key, true)], false), [], {Blind});
    RunThree(Empty, Packed, BlindUpload, Retention);
    assert !HasObject(Demo, w, 1, Intent);
  }

  lemma RunThree(w: World, a: Op, b: Op, c: Op)
    ensures Run(Demo, w, [a, b, c]) == Apply(Demo, Apply(Demo, Apply(Demo, w, a), b), c)
  {
    assert [a, b, c][1..] == [b, c];
    assert [b, c][1..] == [c];
    assert [c][1..] == [];
    var w1 := Apply(Demo, w, a);
    assert Run(Demo, w, [a, b, c]) == Run(Demo, w1, [b, c]);
    var w2 := Apply(Demo, w1, b);
    assert Run(Demo, w1, [b, c]) == Run(Demo, w2, [c]);
  }

  // ---- packing again onto the recorded path ----

  const Repack := ArchiveOp([Fine, Event(false, true, New, "junk", NoTag)], 1, File, [], "p")

  /** The archiver dies while it rewrites the file that the record names. */
  lemma SamePathLosesCopy()
    ensures Safe(Demo, Empty)
    ensures var w := Run(Demo, Empty, [Packed, Repack]); w.faults == {SamePath} && Lost(w)
  {
    EmptyIsSafe();
    PackedWorld();
    var w0 := Disk(ToDisk, map[], Record1([], true), [], {});
    var w1 := w0.(tape := Repack.tape);
    var w2 := Probe(w1).w;
    assert w2.tape == [Repack.tape[1]];
    assert w2.packed[1].path == File;
    var w3 := Pack(w2, File).w;
    assert w3.files == map[File := "junk"] && w3.faults == {SamePath};
    RunTwo(Empty, Packed, Repack);
    assert !HasObject(Demo, w3, 1, Intent);
  }

  lemma RunTwo(w: World, a: Op, b: Op)
    ensures Run(Demo, w, [a, b]) == Apply(Demo, Apply(Demo, w, a), b)
  {
    assert [a, b][1..] == [b];
    assert [b][1..] == [];
    assert Run(Demo, Apply(Demo, w, a), [b]) == Apply(Demo, Apply(Demo, w, a), b);
  }

  // ---- a verified object is damaged while it is rewritten ----

  const TornUpload := ReplicateOp([Quiet] + MisleadingTape("data"), [1], "a", "p")

  lemma TornReplica()
    ensures Apply(Demo, Packed1, TornUpload)
         == Disk(ToDisk, map[], Record1([Locator("a", Key, true)], true), [], {TornRePut})
  {
    TornDone(Packed1, Record1([], true));
    ReplicateIsAll(Packed1, MisleadingTape("data"), Record1([], true), "a");
  }

  lemma TornDone(w: World, m: Meta)
    requires w == Packed1 && m == Record1([], true)
    ensures var r := Replicate(Demo, On(w, MisleadingTape("data")), m, "a", "p");
      r.s.Done? && r.w == Disk(ToDisk, map[], Record1([Locator("a", Key, true)], true), [], {TornRePut})
  {
    NewLocator("a");
    TornWorld(w, Record1([Locator("a", Key, true)], true));
    TornMisleads(Demo, w, m, "a", "p", "data");
  }

  lemma TornWorld(w: World, m: Meta)
    requires w == Packed1 && m.id == 1
    ensures On(ReplicaFaults.Torn(w, SlotA).(index := w.index[m.id := m]), []) == Disk(ToDisk, map[], m, [], {TornRePut})
  {
  }

  /** Pack, an upload whose verified object is then rewritten badly, retention. */
  lemma TornRePutLosesCopy()
    ensures Safe(Demo, Empty)
    ensures var w := Run(Demo, Empty, [Packed, TornUpload, Retention]); w.faults == {TornRePut} && Lost(w)
  {
    EmptyIsSafe();
    PackedWorld();
    TornReplica();
    Retained(map[], [Locator("a", Key, true)], true, {TornRePut});
    RunThree(Empty, Packed, TornUpload, Retention);
    assert !HasObject(Demo, Run(Demo, Empty, [Packed, TornUpload, Retention]), 1, Intent);
  }

  // ---- a damaged download becomes the local file, and is replicated over the intact object ----

  const TwoReplicas := [Locator("a", Key, true), Locator("b", Key, false)]
  const Intact2 := map[SlotA := Obj("data", Md5Tag), SlotB := Junk]
  const AfterRetention := Disk(map[], Intact2, Record1(TwoReplicas, false), [], {})
  const Failing := Event(false, false, New, "junk", NoTag)
  const Recheck := CheckOp([Fine, Fine, Fine, Fine, Fine], 1, false)
  const Overwriting := ReplicateOp([Fine, Fine, Fine, Fine, Failing, Fine, Failing, Fine, Failing], [1], "a", "p")

  lemma AfterRetentionIsSafe()
    ensures Safe(Demo, AfterRetention)
  {
    assert SlotA in AfterRetention.objects && ObjectIntact(Demo, AfterRetention, SlotA, Intent);
    assert MetaOk(Demo, AfterRetention, Record1(TwoReplicas, false));
  }

  lemma DirtyLocator(w1: World)
    requires w1 == AfterRetention.(tape := [Fine, Fine, Fine])
    ensures var w3 := w1.(tape := [Fine], files := map[File := "junk"], faults := {DirtyDownload});
      var m := Record1(TwoReplicas, false); CheckOne(Demo, w1, m, 1, false) == Checking(w3, m, Done)
  {
    var m := Record1(TwoReplicas, false);
    var w2 := w1.(tape := [Fine, Fine]);
    var w3 := w1.(tape := [Fine], files := map[File := "junk"], faults := {DirtyDownload});
    assert Probe(w1) == Out(w2, Done);
    assert Download(Demo, w2, "junk", At(File), Intent) == Out(w3, Done);
    assert ChecksumFromStorage(Demo, w1, SlotB, Intent, At(File)) == Verified(w3, Unhealthy);
    assert SetHealth(m, 1, false) == m;
  }

  lemma DirtyLoop(w1: World)
    requires w1 == AfterRetention.(tape := [Fine, Fine, Fine])
    ensures var w3 := w1.(tape := [Fine], files := map[File := "junk"], faults := {DirtyDownload});
      var m := Record1(TwoReplicas, false); CheckFrom(Demo, w1, m, 0, 2, false) == Checking(w3, m, Done)
  {
    var m := Record1(TwoReplicas, false);
    assert CheckOne(Demo, w1, m, 0, false) == Checking(w1, m, Done);
    DirtyLocator(w1);
    var w3 := w1.(tape := [Fine], files := map[File := "junk"], faults := {DirtyDownload});
    assert CheckFrom(Demo, w3, m, 2, 2, false) == Checking(w3, m, Done);
    assert CheckFrom(Demo, w1, m, 1, 2, false) == Checking(w3, m, Done);
  }

  lemma DirtyCheck()
    ensures Apply(Demo, AfterRetention, Recheck)
         == Disk(map[File := "junk"], Intact2, Record1(TwoReplicas, false), [], {DirtyDownload})
  {
    var m := Record1(TwoReplicas, false);
    var w0 := AfterRetention.(tape := Recheck.tape);
    var w1 := w0.(tape := [Fine, Fine, Fine]);
    assert ChecksumFromFile(Demo, Probe(w0).w, File, Intent) == Verified(w1, Unhealthy);
    DirtyLoop(w1);
  }

  lemma TryFailing(w: World)
    requires |w.tape| >= 2 && w.tape[0] == Fine && w.tape[1] == Failing
    ensures Try(Demo, w, SlotA, Intent) == Again(w.(objects := w.objects[SlotA := Junk], tape := w.tape[2..]), true)
  {
    assert Probe(w).w.tape[1..] == w.tape[2..];
  }

  lemma ThreeFailures(w: World)
    requires w.tape == [Fine, Failing, Fine, Failing, Fine, Failing]
    ensures Upload(Demo, w, SlotA, Intent, 3, false) == Uploaded(w.(objects := w.objects[SlotA := Junk], tape := []), GaveUp)
  {
    TryFailing(w);
    var w1 := w.(objects := w.objects[SlotA := Junk], tape := w.tape[2..]);
    TryFailing(w1);
    var w2 := w1.(tape := w1.tape[2..]);
    TryFailing(w2);
    var w3 := w2.(tape := []);
    assert Upload(Demo, w2, SlotA, Intent, 1, true) == Upload(Demo, w3, SlotA, Intent, 0, true);
    assert Upload(Demo, w1, SlotA, Intent, 2, true) == Upload(Demo, w2, SlotA, Intent, 1, true);
  }

  lemma OverwritingSend(w: World, m1: Meta)
    requires File in w.files && m1.path == File && m1.checksum == Intent
    requires exists i :: 0 <= i < |m1.locators| && m1.locators[i].backend == "a"
    requires w.tape == [Fine, Fine, Failing, Fine, Failing, Fine, Failing]
    ensures Send(Demo, w, m1, "a", "p") == Replication(w.(objects := w.objects[SlotA := Junk], tape := []), m1, Failed)
  {
    var open := Probe(w);
    assert open.w.tape == [Fine, Failing, Fine, Failing, Fine, Failing];
    ThreeFailures(open.w);
  }

  lemma OverwritingReplica(w: World)
    requires w == Disk(map[File := "junk"], Intact2, Record1(TwoReplicas, false), [], {DirtyDownload})
    ensures var w' := Apply(Demo, w, Overwriting);
      w'.files == w.files && w'.objects == w.objects[SlotA := Junk] && w'.packed == w.packed && w'.faults == w.faults
  {
    var m := Record1(TwoReplicas, false);
    var w0 := w.(tape := Overwriting.tape);
    OneListed(w0);
    var w1 := w0.(tape := w0.tape[1..]);
    var m1 := Marked(m, "a", "p");
    var put := IndexPut(w1, m1);
    OverwritingSend(put.w, m1);
    assert Replicate(Demo, w1, m, "a", "p") == Send(Demo, put.w, m1, "a", "p");
  }

  /** From a safe state: a check downloads the damaged replica, and replicating it destroys the intact one. */
  lemma DirtyDownloadLosesCopy()
    ensures Safe(Demo, AfterRetention)
    ensures var w := Run(Demo, AfterRetention, [Recheck, Overwriting]); w.faults == {DirtyDownload} && Lost(w)
  {
    AfterRetentionIsSafe();
    DirtyCheck();
    var w1 := Disk(map[File := "junk"], Intact2, Record1(TwoReplicas, false), [], {DirtyDownload});
    OverwritingReplica(w1);
    RunTwo(AfterRetention, Recheck, Overwriting);
    var w := Run(Demo, AfterRetention, [Recheck, Overwriting]);
    assert !HasObject(Demo, w, 1, Intent);
  }
}
