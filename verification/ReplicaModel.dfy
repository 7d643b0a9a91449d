/** The archive helper's replication, checking, retention and packing as functions on values.

    Every input/output step consumes one event of a tape chosen by the environment. The event says
    whether the step succeeded, whether the process died during it, and what the step left behind.
    An exhausted tape is a crash, so the prefixes of a tape are the crash points of one run. */
module ReplicaModel {

  type Bytes = string

  datatype Algorithm = Md5 | Sha256

  datatype Checksum = Checksum(algorithm: Algorithm, value: string)

  /** A local path or an object key, split into its directory and its last element.
      An empty last element stands for the empty path. */
  datatype Name = Name(dir: string, base: string)

  datatype Slot = Slot(backend: string, key: Name)

  /** What a backend reports as ETag: nothing, the MD5 of the stored bytes, or some other text. */
  datatype Tag = NoTag | Md5Tag | OtherTag

  datatype Obj = Obj(bytes: Bytes, tag: Tag)

  datatype Locator = Locator(backend: string, key: Name, healthy: bool)

  datatype Meta = Meta(id: int, path: Name, checksum: Checksum, version: nat,
                       history: seq<Meta>, locators: seq<Locator>, healthy: bool)

  /** The path and checksum under which an id was last recorded as packed. */
  datatype Copy = Copy(path: Name, checksum: Checksum)

  datatype Status = Done | Failed | Crashed

  /** What a step that did not succeed left of the thing it was writing. */
  datatype Left = Old | New | Gone

  datatype Event = Event(ok: bool, dies: bool, left: Left, bytes: Bytes, tag: Tag)

  /** Ways in which a run leaves the intended protocol. */
  datatype Fault =
    | Blind          // three uploads in a row mismatched and the replica was marked healthy
    | TornRePut      // rewriting a verified object damaged it
    | DirtyDownload  // a damaged download was left at the local archive path
    | SamePath       // a pack wrote over the file of a recorded archive

  datatype Config = Config(
    digest: (Algorithm, Bytes) -> string,
    canRePut: set<string>,
    registered: set<string>,
    owner: string -> int,
    parseVersion: string -> nat)

  datatype World = World(
    files: map<Name, Bytes>,
    objects: map<Slot, Obj>,
    index: map<int, Meta>,
    packed: map<int, Copy>,
    tape: seq<Event>,
    faults: set<Fault>)

  datatype Out = Out(w: World, s: Status)

  predicate Intact(cfg: Config, bytes: Bytes, sum: Checksum) {
    cfg.digest(sum.algorithm, bytes) == sum.value
  }

  /** The reported ETag equals the checksum value. An ETag is an MD5, so it never equals a SHA-256. */
  predicate TagMatches(cfg: Config, o: Obj, sum: Checksum) {
    o.tag.Md5Tag? && sum.algorithm.Md5? && Intact(cfg, o.bytes, sum)
  }

  predicate ValidMeta(m: Meta) {
    m.id != 0 && m.path.base != ""
  }

  predicate ValidBase(base: string) {
    base != "" && base != "." && base != "/"
  }

  // ---- single input/output steps ----

  const PowerCut := Event(false, true, Old, "", NoTag)

  function Peek(w: World): Event {
    if w.tape == [] then PowerCut else w.tape[0]
  }

  function Pop(w: World): World {
    if w.tape == [] then w else w.(tape := w.tape[1..])
  }

  function StatusOf(e: Event): Status {
    if e.dies then Crashed else if e.ok then Done else Failed
  }

  function LeftOf(e: Event): Left {
    if e.ok && !e.dies then New else e.left
  }

  /** A step that reads only. */
  function Probe(w: World): Out {
    Out(Pop(w), StatusOf(Peek(w)))
  }

  /** One index write. A write that fails may leave the old record, the new one, or none:
      the file store deletes the old record before it moves the new one into place. */
  function IndexPut(w: World, m: Meta): Out {
    var e := Peek(w);
    Out(Pop(w).(index := Written(w.index, m.id, m, LeftOf(e))), StatusOf(e))
  }

  function Written<K, V>(m: map<K, V>, k: K, v: V, left: Left): map<K, V> {
    match left
    case Old => m
    case New => m[k := v]
    case Gone => m - {k}
  }

  /** One upload. Whatever it stores, a reported MD5 is the MD5 of what was stored. */
  function BackendPut(w: World, slot: Slot): Out {
    var e := Peek(w);
    Out(Pop(w).(objects := Written(w.objects, slot, Obj(e.bytes, e.tag), LeftOf(e))), StatusOf(e))
  }

  function Flag(w: World, f: Fault, raised: bool): World {
    if raised then w.(faults := w.faults + {f}) else w
  }

  predicate ObjectIntact(cfg: Config, w: World, slot: Slot, sum: Checksum) {
    slot in w.objects && Intact(cfg, w.objects[slot].bytes, sum)
  }

  predicate FileIntact(cfg: Config, w: World, path: Name, sum: Checksum) {
    path in w.files && Intact(cfg, w.files[path], sum)
  }

  // ---- verifying an object ----

  datatype SavePath = Nowhere | At(path: Name)

  datatype Verdict = Healthy | Unhealthy | ReadError | Died

  datatype Verified = Verified(w: World, v: Verdict)

  /** A download of bytes to the save path. A backend may ignore the save path (Old). */
  function Download(cfg: Config, w: World, bytes: Bytes, save: SavePath, sum: Checksum): Out {
    var e := Peek(w);
    match save
    case Nowhere => Out(Pop(w), StatusOf(e))
    case At(path) =>
      var got := if e.ok && !e.dies then bytes else e.bytes;
      var w1 := Pop(w).(files := Written(w.files, path, got, e.left));
      Out(Flag(w1, DirtyDownload, path in w1.files && !FileIntact(cfg, w1, path, sum)), StatusOf(e))
  }

  /** Rewriting an object that has just been verified. Its failure is only logged. */
  function RePut(cfg: Config, w: World, slot: Slot, sum: Checksum): Verified {
    if slot.backend !in cfg.canRePut then Verified(w, Healthy)
    else
      var p := BackendPut(w, slot);
      Verified(Flag(p.w, TornRePut, !ObjectIntact(cfg, p.w, slot, sum)), if p.s.Crashed? then Died else Healthy)
  }

  function ChecksumFromStorage(cfg: Config, w: World, slot: Slot, sum: Checksum, save: SavePath): Verified {
    var st := Probe(w);
    if st.s.Crashed? then Verified(st.w, Died)
    else if st.s.Failed? then Verified(st.w, ReadError)
    else if slot !in w.objects then Verified(st.w, Unhealthy)
    else
      var o := w.objects[slot];
      if TagMatches(cfg, o, sum) && save.Nowhere? then Verified(st.w, Healthy)
      else
        var d := Download(cfg, st.w, o.bytes, save, sum);
        if d.s.Crashed? then Verified(d.w, Died)
        else if d.s.Failed? then Verified(d.w, ReadError)
        else if Intact(cfg, o.bytes, sum) then RePut(cfg, d.w, slot, sum)
        else Verified(d.w, Unhealthy)
  }

  // ---- replicate ----

  datatype UploadEnd = Stored | Unverified | GaveUp | Killed

  datatype Uploaded = Uploaded(w: World, end: UploadEnd)

  /** One round of the retry loop: it ends the loop, or the next round starts with or without an error. */
  datatype Round = Stop(w: World, end: UploadEnd) | Again(w: World, err: bool)

  function Try(cfg: Config, w: World, slot: Slot, sum: Checksum): Round {
    var seek := Probe(w);
    if seek.s.Crashed? then Stop(seek.w, Killed)
    else if seek.s.Failed? then Stop(seek.w, GaveUp)
    else
      var p := BackendPut(seek.w, slot);
      if p.s.Crashed? then Stop(p.w, Killed)
      else if p.s.Failed? then Again(p.w, true)
      else
        var o := p.w.objects[slot];
        if TagMatches(cfg, o, sum) then Stop(p.w, Stored)
        else if !o.tag.NoTag? && sum.algorithm.Md5? then Again(p.w, false)
        else
          var v := ChecksumFromStorage(cfg, p.w, slot, sum, Nowhere);
          match v.v
          case Died => Stop(v.w, Killed)
          case ReadError => Stop(v.w, GaveUp)
          case Healthy => Stop(v.w, Stored)
          case Unhealthy => Again(v.w, false)
  }

  /** The retry loop. A mismatch clears the error, so running out of tries after one is not an error. */
  function Upload(cfg: Config, w: World, slot: Slot, sum: Checksum, tries: nat, err: bool): Uploaded
    decreases tries
  {
    if tries == 0 then Uploaded(w, if err then GaveUp else Unverified)
    else
      match Try(cfg, w, slot, sum)
      case Stop(w1, end) => Uploaded(w1, end)
      case Again(w1, err1) => Upload(cfg, w1, slot, sum, tries - 1, err1)
  }

  /** Every locator of the backend replaced, and the position of the last one (or of a new last one). */
  function Mark(ls: seq<Locator>, l: Locator): (r: seq<Locator>)
    ensures exists i :: 0 <= i < |r| && r[i].backend == l.backend
    ensures forall i :: 0 <= i < |r| ==>
      if r[i].backend == l.backend then r[i] == l else i < |ls| && r[i] == ls[i]
  {
    var r := Replaced(ls, l);
    if exists i :: 0 <= i < |ls| && ls[i].backend == l.backend
    then
      var i :| 0 <= i < |ls| && ls[i].backend == l.backend;
      assert r[i].backend == l.backend;
      r
    else
      assert (r + [l])[|r|] == l;
      r + [l]
  }

  function Replaced(ls: seq<Locator>, l: Locator): (r: seq<Locator>)
    ensures |r| == |ls|
    ensures forall i :: 0 <= i < |ls| ==> r[i] == if ls[i].backend == l.backend then l else ls[i]
  {
    seq(|ls|, i requires 0 <= i < |ls| => if ls[i].backend == l.backend then l else ls[i])
  }

  function LastOf(ls: seq<Locator>, backend: string): (i: nat)
    requires exists i :: 0 <= i < |ls| && ls[i].backend == backend
    ensures i < |ls| && ls[i].backend == backend
    ensures forall j :: i < j < |ls| ==> ls[j].backend != backend
  {
    if ls[|ls| - 1].backend == backend then |ls| - 1 else LastOf(ls[..|ls| - 1], backend)
  }

  datatype Replication = Replication(w: World, meta: Meta, s: Status)

  function Pending(meta: Meta, backend: string, prefix: string): Locator {
    Locator(backend, Name(prefix, meta.path.base), false)
  }

  function Marked(meta: Meta, backend: string, prefix: string): Meta {
    meta.(locators := Mark(meta.locators, Pending(meta, backend, prefix)))
  }

  function Confirmed(m1: Meta, backend: string, prefix: string): Meta
    requires exists i :: 0 <= i < |m1.locators| && m1.locators[i].backend == backend
  {
    m1.(locators := m1.locators[LastOf(m1.locators, backend) := Pending(m1, backend, prefix).(healthy := true)])
  }

  /** Mark the replica unhealthy in the index, upload, then mark it healthy. */
  function Replicate(cfg: Config, w: World, meta: Meta, backend: string, prefix: string): Replication {
    if !ValidMeta(meta) || !ValidBase(meta.path.base) then Replication(w, meta, Failed)
    else
      var m1 := Marked(meta, backend, prefix);
      var put := IndexPut(w, m1);
      if put.s.Done? then Send(cfg, put.w, m1, backend, prefix) else Replication(put.w, m1, put.s)
  }

  function Send(cfg: Config, w: World, m1: Meta, backend: string, prefix: string): Replication
    requires exists i :: 0 <= i < |m1.locators| && m1.locators[i].backend == backend
  {
    if m1.path !in w.files then Replication(w, m1, Failed)
    else
      var open := Probe(w);
      if !open.s.Done? then Replication(open.w, m1, open.s)
      else
        var up := Upload(cfg, open.w, Slot(backend, Name(prefix, m1.path.base)), m1.checksum, 3, false);
        match up.end
        case Killed => Replication(up.w, m1, Crashed)
        case GaveUp => Replication(up.w, m1, Failed)
        case _ =>
          var m2 := Confirmed(m1, backend, prefix);
          var fin := IndexPut(Flag(up.w, Blind, up.end.Unverified?), m2);
          Replication(fin.w, m2, fin.s)
  }

  /** ReplicateMore over the listed records, stopping at the first error. */
  function ReplicateAll(cfg: Config, w: World, items: seq<Meta>, backend: string, prefix: string): Out
    decreases |items|
  {
    if items == [] then Out(w, Done)
    else
      var r := Replicate(cfg, w, items[0], backend, prefix);
      if r.s.Done? then ReplicateAll(cfg, r.w, items[1..], backend, prefix) else Out(r.w, r.s)
  }

  // ---- retention ----

  predicate HasHealthy(ls: seq<Locator>) {
    exists i :: 0 <= i < |ls| && ls[i].healthy
  }

  function Remove(w: World, path: Name): Out {
    var e := Peek(w);
    var left := if LeftOf(e).Old? then Old else Gone;
    Out(Pop(w).(files := if left.Gone? then w.files - {path} else w.files),
        if path !in w.files && !e.dies then Done else StatusOf(e))
  }

  function RetainOne(w: World, meta: Meta): Out {
    if !HasHealthy(meta.locators) then Out(w, Done)
    else
      var rm := Remove(w, meta.path);
      if !rm.s.Done? then rm
      else if !ValidMeta(meta) then Out(rm.w, Failed)
      else IndexPut(rm.w, meta.(healthy := false))
  }

  function Retain(w: World, items: seq<Meta>): Out
    decreases |items|
  {
    if items == [] then Out(w, Done)
    else if items[0].path.base == "" then Out(w, Failed)
    else
      var r := RetainOne(w, items[0]);
      if r.s.Done? then Retain(r.w, items[1..]) else r
  }

  // ---- check ----

  datatype Checking = Checking(w: World, meta: Meta, s: Status)

  function SlotOf(l: Locator): Slot {
    Slot(l.backend, l.key)
  }

  function SaveFor(meta: Meta): SavePath {
    if meta.healthy then Nowhere else At(meta.path)
  }

  function Concluded(v: Verified, meta: Meta, i: nat): Checking {
    match v.v
    case Died => Checking(v.w, meta, Crashed)
    case ReadError => Checking(v.w, meta, Failed)
    case _ => Checking(v.w, SetHealth(meta, i, v.v.Healthy?), Done)
  }

  /** One locator of Check: verify it and, beside an intact local file, repair it. */
  function CheckOne(cfg: Config, w: World, meta: Meta, i: nat, force: bool): Checking
    requires i < |meta.locators|
  {
    var l := meta.locators[i];
    if (l.healthy && !force) || l.backend !in cfg.registered then Checking(w, meta, Done)
    else
      var v := ChecksumFromStorage(cfg, w, SlotOf(l), meta.checksum, SaveFor(meta));
      if meta.healthy && v.v.Unhealthy? then Repair(cfg, v.w, meta, i) else Concluded(v, meta, i)
  }

  /** Replicate again under the directory of the recorded key, then verify the recorded key again.
      An error of replicate is only logged. */
  function Repair(cfg: Config, w: World, meta: Meta, i: nat): Checking
    requires i < |meta.locators|
  {
    var l := meta.locators[i];
    var r := Replicate(cfg, w, meta, l.backend, l.key.dir);
    if r.s.Crashed? then Checking(r.w, r.meta, Crashed)
    else Concluded(ChecksumFromStorage(cfg, r.w, SlotOf(l), meta.checksum, SaveFor(meta)), r.meta, i)
  }

  function SetHealth(meta: Meta, i: nat, healthy: bool): Meta {
    if i < |meta.locators|
    then meta.(locators := meta.locators[i := meta.locators[i].(healthy := healthy)])
    else meta
  }

  function CheckFrom(cfg: Config, w: World, meta: Meta, i: nat, n: nat, force: bool): Checking
    requires i <= n
    decreases n - i
  {
    if i == n || i >= |meta.locators| then Checking(w, meta, Done)
    else
      var r := CheckOne(cfg, w, meta, i, force);
      if r.s.Done? then CheckFrom(cfg, r.w, r.meta, i + 1, n, force) else r
  }

  function ChecksumFromFile(cfg: Config, w: World, path: Name, sum: Checksum): Verified {
    var p := Probe(w);
    if p.s.Crashed? then Verified(p.w, Died)
    else if p.s.Failed? then Verified(p.w, ReadError)
    else Verified(p.w, if FileIntact(cfg, w, path, sum) then Healthy else Unhealthy)
  }

  function Check(cfg: Config, w: World, id: int, force: bool): Out {
    var get := Probe(w);
    if !get.s.Done? then get
    else if id !in w.index then Out(get.w, Failed)
    else
      var m0 := w.index[id];
      if !ValidMeta(m0) then Out(get.w, Failed)
      else
        var local := ChecksumFromFile(cfg, get.w, m0.path, m0.checksum);
        if local.v.Died? then Out(local.w, Crashed)
        else if local.v.ReadError? then Out(local.w, Failed)
        else
          var m1 := m0.(healthy := local.v.Healthy?);
          var r := CheckFrom(cfg, local.w, m1, 0, |m1.locators|, force);
          if r.s.Done? then IndexPut(r.w, r.meta) else Out(r.w, r.s)
  }

  // ---- archive ----

  /** Writing a new archive to dest, whatever it leaves there when it does not succeed. */
  function Pack(w: World, dest: Name): Out {
    var e := Peek(w);
    var w1 := Pop(w).(files := Written(w.files, dest, e.bytes, LeftOf(e)));
    Out(Flag(w1, SamePath, !LeftOf(e).Old? && exists id :: id in w.packed && w.packed[id].path == dest), StatusOf(e))
  }

  function HistoryOf(w: World, id: int): seq<Meta> {
    if id in w.index then w.index[id].history + [w.index[id].(history := [])] else []
  }

  /** The record of a file that was just packed. */
  function Fresh(cfg: Config, w: World, id: int, dest: Name, history: seq<Meta>): Meta
    requires dest in w.files
  {
    var sum := Checksum(Md5, cfg.digest(Md5, w.files[dest]));
    Meta(id, dest, sum, cfg.parseVersion(dest.base), history, [], true)
  }

  /** The index write that makes a pack known. */
  function Record(w: World, meta: Meta): Out {
    var put := IndexPut(w, meta);
    if LeftOf(Peek(w)).New?
    then Out(put.w.(packed := put.w.packed[meta.id := Copy(meta.path, meta.checksum)]), put.s)
    else put
  }

  function Archive(cfg: Config, w: World, id: int, dest: Name, backends: seq<string>, prefix: string): Out {
    var get := Probe(w);
    if dest.base == "" then Out(w, Failed)
    else if !get.s.Done? then get
    else
      var packing := Pack(get.w, dest);
      if !packing.s.Done? then packing
      else
        var hash := Probe(packing.w);
        if !hash.s.Done? then hash
        else if id == 0 then Out(hash.w, Failed)
        else
          Publish(cfg, hash.w, Fresh(cfg, hash.w, id, dest, HistoryOf(w, id)), backends, prefix)
  }

  function Publish(cfg: Config, w: World, meta: Meta, backends: seq<string>, prefix: string): Out {
    var put := Record(w, meta);
    if put.s.Done? then ReplicateTo(cfg, put.w, meta, backends, prefix) else put
  }

  function ReplicateTo(cfg: Config, w: World, meta: Meta, backends: seq<string>, prefix: string): Out
    decreases |backends|
  {
    if backends == [] then Out(w, Done)
    else
      var r := Replicate(cfg, w, meta, backends[0], prefix);
      if r.s.Done? then ReplicateTo(cfg, r.w, r.meta, backends[1..], prefix) else Out(r.w, r.s)
  }

  // ---- runs ----

  /** One helper call with the tape the environment plays to it. */
  datatype Op =
    | ArchiveOp(tape: seq<Event>, id: int, dest: Name, backends: seq<string>, prefix: string)
    | ReplicateOp(tape: seq<Event>, ids: seq<int>, backend: string, prefix: string)
    | CheckOp(tape: seq<Event>, id: int, force: bool)
    | RetainOp(tape: seq<Event>, ids: seq<int>)

  /** The records a listing returns: those of the selected ids that exist. */
  function Listed(w: World, ids: seq<int>): seq<Meta>
    decreases |ids|
  {
    if ids == [] then []
    else (if ids[0] in w.index then [w.index[ids[0]]] else []) + Listed(w, ids[1..])
  }

  function Apply(cfg: Config, w: World, op: Op): World {
    var w0 := w.(tape := op.tape);
    match op
    case ArchiveOp(_, id, dest, backends, prefix) => Archive(cfg, w0, id, dest, backends, prefix).w
    case ReplicateOp(_, ids, backend, prefix) =>
      var list := Probe(w0);
      if list.s.Done? then ReplicateAll(cfg, list.w, Listed(w0, ids), backend, prefix).w else list.w
    case CheckOp(_, id, force) => Check(cfg, w0, id, force).w
    case RetainOp(_, ids) =>
      var list := Probe(w0);
      if list.s.Done? then Retain(list.w, Listed(w0, ids)).w else list.w
  }

  function Run(cfg: Config, w: World, ops: seq<Op>): World
    decreases |ops|
  {
    if ops == [] then w else Run(cfg, Apply(cfg, w, ops[0]), ops[1..])
  }
}
