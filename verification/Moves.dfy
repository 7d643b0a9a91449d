/** Sorting found archive files into the archive tree or the tree of rejected files. Any file operation may fail, and the
    process may die at any of them; no file may get lost or overwritten. */
module Moves {
  import opened Options

  type Path = string
  type Bytes = string

  /** What the environment lets one operation do. An operation during which the process dies may still take effect.
      bytes is what an incomplete copy leaves; stamp is the clock reading used in names. */
  datatype Event = Event(ok: bool, dies: bool, effect: bool, bytes: Bytes, stamp: nat)

  /** cidOf reads the id from a path; archive and reject say where a file of an id belongs (ids that are not positive
      have names with a time stamp); dup and temp derive further names. expected is the recorded MD5, if any. */
  datatype Config = Config(
    cidOf: Path -> Option<int>,
    archive: (int, nat) -> Path,
    reject: (Path, int, nat) -> Path,
    dup: (Path, nat) -> Path,
    stamped: (Path, nat) -> Path,
    temp: (Path, nat) -> Path,
    md5: Bytes -> string,
    expected: int -> Option<string>)

  const MaxDup := 999

  datatype Result = Ok | NotExist | Failed

  type Files = map<Path, Bytes>

  ghost predicate SameAt(before: Files, after: Files, p: Path) {
    (p in before <==> p in after) && (p in before ==> after[p] == before[p])
  }

  ghost predicate Temporary(cfg: Config, dst: Path, p: Path) {
    exists stamp: nat :: p == cfg.temp(dst, stamp)
  }

  /** The file that was at src is complete at src or at dst, never incomplete at either, and nothing else differs but
      for new temporary files. */
  ghost predicate Moving(cfg: Config, before: Files, after: Files, src: Path, dst: Path) {
    && src in before
    && (src in after || dst in after)
    && (src in after ==> after[src] == before[src])
    && (dst in after ==> after[dst] == before[src])
    && forall p :: p != src && p != dst ==> SameAt(before, after, p) || (p !in before && Temporary(cfg, dst, p))
  }

  /** Every file other than src is where it was, and the content of src is complete at at. */
  ghost predicate Kept(before: Files, after: Files, src: Path, at: Path) {
    && src in before
    && at in after && after[at] == before[src]
    && (at == src || at !in before)
    && forall p :: p in before && p != src ==> p in after && after[p] == before[p]
  }

  lemma MovingKeeps(cfg: Config, before: Files, after: Files, src: Path, dst: Path)
    requires Moving(cfg, before, after, src, dst) && dst !in before
    ensures Kept(before, after, src, if src in after then src else dst)
  {
    forall p | p in before && p != src ensures p in after && after[p] == before[p] { assert SameAt(before, after, p); }
  }

  /** A second move of the same file, from a state that still has it at src. */
  lemma KeptAgain(before: Files, middle: Files, after: Files, src: Path, at: Path)
    requires Kept(before, middle, src, src) && Kept(middle, after, src, at)
    ensures Kept(before, after, src, at)
  {
  }

  /** Every file of the start has a place of its own that holds its complete content; those that were not to be moved
      are where they were. */
  ghost predicate Located(start: Files, now: Files, place: map<Path, Path>, candidates: seq<Path>) {
    && place.Keys == start.Keys
    && (forall p :: p in start ==> place[p] in now && now[place[p]] == start[p])
    && (forall p, q :: p in start && q in start && place[p] == place[q] ==> p == q)
    && (forall p :: p in start && p !in candidates ==> place[p] == p)
  }

  ghost predicate Lossless(start: Files, now: Files, candidates: seq<Path>) {
    exists place :: Located(start, now, place, candidates)
  }

  /** Moving one more candidate, found where it started. */
  lemma LocatedNext(start: Files, now: Files, after: Files, place: map<Path, Path>, candidates: seq<Path>, src: Path, at: Path)
    requires Located(start, now, place, candidates) && src in start && place[src] == src && Kept(now, after, src, at)
    ensures Located(start, after, place[src := at], candidates + [src])
  {
  }

  /** The file at p, if it is an archive of a positive id, has the recorded MD5 or was there before. */
  ghost predicate Checked(cfg: Config, before: Files, after: Files) {
    forall p, cid, stamp :: p in after && p !in before && cid > 0 && p == cfg.archive(cid, stamp) ==>
      cfg.expected(cid) == Some(cfg.md5(after[p]))
  }

  /** Neither rejected files nor files with derived names lie at the archive path of a positive id, and an archive path
      tells its id. */
  ghost predicate Separate(cfg: Config) {
    && (forall c, t, s, d, u :: c > 0 ==> cfg.archive(c, t) != cfg.reject(s, d, u))
    && (forall c, t, p, i :: c > 0 ==> cfg.archive(c, t) != cfg.dup(p, i))
    && (forall c, t, p, i :: c > 0 ==> cfg.archive(c, t) != cfg.stamped(p, i))
    && (forall c, t, p, i :: c > 0 ==> cfg.archive(c, t) != cfg.temp(p, i))
    && (forall c, t, d, u :: c > 0 && cfg.archive(c, t) == cfg.archive(d, u) ==> c == d)
  }

  /** A path that only rejected, temporary or duplicate files get. */
  ghost predicate Reject(cfg: Config, p: Path) {
    || (exists s, d, u :: p == cfg.reject(s, d, u))
    || (exists q, i :: p == cfg.dup(q, i))
    || (exists q, i :: p == cfg.stamped(q, i))
    || (exists q, i :: p == cfg.temp(q, i))
  }

  lemma ArchivedChecked(cfg: Config, before: Files, after: Files, src: Path, cid: int, stamp: nat)
    requires Separate(cfg) && Moving(cfg, before, after, src, cfg.archive(cid, stamp))
    requires cfg.expected(cid) == Some(cfg.md5(before[src]))
    ensures Checked(cfg, before, after)
  {
    forall p, c, t | p in after && p !in before && c > 0 && p == cfg.archive(c, t)
      ensures cfg.expected(c) == Some(cfg.md5(after[p]))
    {
      assert p != src && !Temporary(cfg, cfg.archive(cid, stamp), p);
      assert p == cfg.archive(cid, stamp) || SameAt(before, after, p);
    }
  }

  lemma RejectedChecked(cfg: Config, before: Files, after: Files)
    requires Separate(cfg) && forall p :: p in after && p !in before ==> Reject(cfg, p)
    ensures Checked(cfg, before, after)
  {
    forall p, c, t | p in after && p !in before && c > 0
      ensures p == cfg.archive(c, t) ==> cfg.expected(c) == Some(cfg.md5(after[p]))
    {
      assert Reject(cfg, p);
    }
  }

  lemma CheckedTrans(cfg: Config, start: Files, now: Files, after: Files, src: Path, at: Path)
    requires Checked(cfg, start, now) && Checked(cfg, now, after) && Kept(now, after, src, at) && src in start
    ensures Checked(cfg, start, after)
  {
  }

  /** The files a scan finds, each once. */
  ghost predicate Found(files: Files, candidates: seq<Path>) {
    && (forall i :: 0 <= i < |candidates| ==> candidates[i] in files)
    && forall i, j :: 0 <= i < j < |candidates| ==> candidates[i] != candidates[j]
  }

  /** What holds after i candidates. */
  ghost predicate Sorted(cfg: Config, start: Files, now: Files, place: map<Path, Path>, candidates: seq<Path>, i: nat) {
    && i <= |candidates| && Found(start, candidates)
    && Located(start, now, place, candidates[..i])
    && (Separate(cfg) ==> Checked(cfg, start, now))
  }

  lemma SortedSoFar(cfg: Config, start: Files, now: Files, place: map<Path, Path>, candidates: seq<Path>, i: nat)
    requires Sorted(cfg, start, now, place, candidates, i)
    ensures Lossless(start, now, candidates) && (Separate(cfg) ==> Checked(cfg, start, now))
  {
    assert Located(start, now, place, candidates);
  }

  lemma CandidateThere(cfg: Config, start: Files, now: Files, place: map<Path, Path>, candidates: seq<Path>, i: nat)
    requires Sorted(cfg, start, now, place, candidates, i) && i < |candidates|
    ensures candidates[i] in now && candidates[i] in start && place[candidates[i]] == candidates[i]
  {
    assert candidates[i] !in candidates[..i];
  }

  lemma SortedNext(cfg: Config, start: Files, now: Files, after: Files, place: map<Path, Path>, candidates: seq<Path>,
                   i: nat, at: Path)
    requires Sorted(cfg, start, now, place, candidates, i) && i < |candidates|
    requires Kept(now, after, candidates[i], at) && (Separate(cfg) ==> Checked(cfg, now, after))
    ensures Sorted(cfg, start, after, place[candidates[i] := at], candidates, i + 1)
  {
    CandidateThere(cfg, start, now, place, candidates, i);
    LocatedNext(start, now, after, place, candidates[..i], candidates[i], at);
    assert candidates[..i + 1] == candidates[..i] + [candidates[i]];
    if Separate(cfg) { CheckedTrans(cfg, start, now, after, candidates[i], at); }
  }

  function Relocated(files: Files, src: Path, dst: Path): Files
    requires src in files
  {
    files[dst := files[src]] - {src}
  }

  predicate Matches(cfg: Config, files: Files, src: Path)
    requires src in files
  {
    cfg.cidOf(src).Some? && cfg.expected(cfg.cidOf(src).value) == Some(cfg.md5(files[src]))
  }

  /** Where a file goes when every operation succeeds: to the archive if its MD5 is the recorded one and its place is
      free, to the rejected files otherwise. */
  function Destination(cfg: Config, files: Files, src: Path, tape: seq<Event>): Path
    requires src in files && |tape| >= 5
  {
    var cid := cfg.cidOf(src);
    if cid.None? then cfg.reject(src, 0, tape[0].stamp)
    else if !Matches(cfg, files, src) then cfg.reject(src, cid.value, tape[2].stamp)
    else if cfg.archive(cid.value, tape[2].stamp) !in files then cfg.archive(cid.value, tape[2].stamp)
    else cfg.reject(src, cid.value, tape[4].stamp)
  }

  /** A file of a positive id goes to its place in the archive if and only if its MD5 is the recorded one and that place
      is free; every other file goes to the rejected ones. */
  lemma DestinationExact(cfg: Config, files: Files, src: Path, tape: seq<Event>)
    requires src in files && |tape| >= 5 && Separate(cfg)
    ensures var d, stamp := Destination(cfg, files, src, tape), tape[2].stamp;
      && (cfg.cidOf(src).Some? && cfg.cidOf(src).value > 0 ==>
            var cid := cfg.cidOf(src).value;
            (exists t :: d == cfg.archive(cid, t))
            <==> cfg.expected(cid) == Some(cfg.md5(files[src])) && cfg.archive(cid, stamp) !in files)
      && (cfg.cidOf(src).None? ==> exists t :: d == cfg.reject(src, 0, t))
      && (cfg.cidOf(src).Some? ==>
            var cid := cfg.cidOf(src).value;
            (exists t :: d == cfg.archive(cid, t)) || exists t :: d == cfg.reject(src, cid, t))
  {
    var cid, d := cfg.cidOf(src), Destination(cfg, files, src, tape);
    assert cid.None? ==> d == cfg.reject(src, 0, tape[0].stamp);
    assert cid.Some? ==>
      d == cfg.archive(cid.value, tape[2].stamp) || d == cfg.reject(src, cid.value, tape[2].stamp) || d == cfg.reject(src, cid.value, tape[4].stamp);
  }

  /** A place to which files are sorted. */
  ghost predicate Target(cfg: Config, p: Path) {
    (exists c, t :: p == cfg.archive(c, t)) || Reject(cfg, p)
  }

  /** Every file has a place of its own, and that of a candidate is one to which files are sorted. */
  ghost predicate Delivered(cfg: Config, start: Files, now: Files, candidates: seq<Path>) {
    exists place :: Located(start, now, place, candidates) && AllTargets(cfg, place, candidates)
  }

  ghost predicate AllTargets(cfg: Config, place: map<Path, Path>, candidates: seq<Path>) {
    forall i :: 0 <= i < |candidates| ==> candidates[i] in place && Target(cfg, place[candidates[i]])
  }

  lemma SortedIsDelivered(cfg: Config, start: Files, now: Files, place: map<Path, Path>, candidates: seq<Path>)
    requires Sorted(cfg, start, now, place, candidates, |candidates|) && AllTargets(cfg, place, candidates)
    ensures Delivered(cfg, start, now, candidates)
  {
    assert candidates[..|candidates|] == candidates;
  }

  lemma TargetsNext(cfg: Config, place: map<Path, Path>, candidates: seq<Path>, i: nat, at: Path)
    requires i < |candidates| && AllTargets(cfg, place, candidates[..i]) && Target(cfg, at)
    ensures AllTargets(cfg, place[candidates[i] := at], candidates[..i + 1])
  {
    forall k | 0 <= k < i ensures candidates[k] in place && Target(cfg, place[candidates[k]]) {
      assert candidates[..i][k] == candidates[k];
    }
  }

  predicate AllGood(tape: seq<Event>) {
    forall i :: 0 <= i < |tape| ==> tape[i].ok && !tape[i].dies
  }

  class Disk {
    const cfg: Config
    var files: Files
    var tape: seq<Event>
    var dead: bool
    /** A name made from the clock was already taken. */
    var clash: bool

    constructor (cfg: Config, files: Files, tape: seq<Event>)
      ensures this.cfg == cfg && this.files == files && this.tape == tape && !dead && !clash
    {
      this.cfg, this.files, this.tape, dead, clash := cfg, files, tape, false, false;
    }

    /** The next n operations, and all after them, succeed. */
    ghost predicate Quiet(n: nat)
      reads this`tape, this`dead
    {
      !dead && |tape| >= n && AllGood(tape)
    }

    /** The next event. Nothing happens any more once the process is dead; an empty tape kills it. */
    method Next() returns (e: Event)
      modifies this`tape, this`dead
      ensures old(dead) ==> dead && !e.ok && !e.effect
      ensures dead <==> old(dead) || e.dies
      ensures e.dies ==> !e.ok
      ensures old(Quiet(1)) ==> e == old(tape)[0] && tape == old(tape)[1..] && Quiet(|tape|)
    {
      if dead || tape == [] {
        dead := true;
        return Event(false, true, false, "", 0);
      }
      e, tape := tape[0], tape[1..];
      dead := e.dies;
      if e.dies { e := e.(ok := false); }
    }

    method Rename(a: Path, b: Path) returns (r: Result)
      modifies this`files, this`tape, this`dead
      ensures files == old(files) || (a in old(files) && files == old(files)[b := old(files)[a]] - (if a == b then {} else {a}))
      ensures a in old(files) ==> r != NotExist
      ensures r == Ok ==> !dead && a in old(files) && files == old(files)[b := old(files)[a]] - (if a == b then {} else {a})
      ensures r != Ok && !dead ==> files == old(files)
      ensures old(dead) ==> dead && files == old(files)
      ensures old(Quiet(1)) ==> (a in old(files) ==> r == Ok) && tape == old(tape)[1..] && Quiet(|tape|)
    {
      var e := Next();
      if a !in files { return NotExist; }
      if e.ok || (e.dies && e.effect) { files := files[b := files[a]] - (if a == b then {} else {a}); }
      return if e.ok then Ok else Failed;
    }

    method Remove(p: Path) returns (ok: bool)
      modifies this`files, this`tape, this`dead
      ensures files == old(files) || files == old(files) - {p}
      ensures ok ==> !dead && files == old(files) - {p}
      ensures !ok && !dead ==> files == old(files)
      ensures old(dead) ==> dead && files == old(files)
    {
      var e := Next();
      ok := e.ok && p in files;
      if ok || (e.dies && e.effect) { files := files - {p}; }
    }

    method Write(p: Path, content: Bytes) returns (ok: bool)
      modifies this`files, this`tape, this`dead
      ensures files == old(files) || (p in files && files == old(files)[p := files[p]])
      ensures ok ==> !dead && files == old(files)[p := content]
      ensures old(dead) ==> dead && files == old(files)
    {
      var e := Next();
      ok := e.ok;
      if e.ok { files := files[p := content]; }
      else if e.effect { files := files[p := e.bytes]; }
    }

    method Step() returns (ok: bool)
      modifies this`tape, this`dead
      ensures ok ==> !dead
      ensures old(dead) ==> dead
      ensures old(Quiet(1)) ==> ok && tape == old(tape)[1..] && Quiet(|tape|)
    {
      var e := Next();
      ok := e.ok;
    }

    /** A name from the clock that should not be taken. */
    method Stamp(p: Path, temporary: bool) returns (name: Path)
      modifies this`tape, this`dead, this`clash
      ensures old(clash) ==> clash
      ensures !clash ==> name !in files && name != p
      ensures exists stamp: nat :: name == if temporary then cfg.temp(p, stamp) else cfg.stamped(p, stamp)
      ensures old(dead) ==> dead
      ensures old(Quiet(1)) ==> Quiet(|old(tape)| - 1)
    {
      var stamp := if tape == [] then 0 else tape[0].stamp;
      name := if temporary then cfg.temp(p, stamp) else cfg.stamped(p, stamp);
      if name in files || name == p { clash := true; }
      var _ := Next();
    }

    method Discard(tmp: Path)
      modifies this`files, this`tape, this`dead
      ensures files == old(files) || files == old(files) - {tmp}
      ensures old(dead) ==> dead && files == old(files)
    {
      var _ := Remove(tmp);
    }

    /** Writes, syncs and closes a copy; an incomplete one is discarded. */
    method CopyTo(src: Path, tmp: Path) returns (ok: bool)
      requires src in files
      modifies this`files, this`tape, this`dead
      ensures tmp != src ==> forall p :: p != tmp ==> SameAt(old(files), files, p)
      ensures tmp != src && ok ==> !dead && files == old(files)[tmp := old(files)[src]]
    {
      ok := Write(tmp, "");
      if !ok { return; }
      ok := Write(tmp, files[src]);
      if !ok { Discard(tmp); return; }
      ok := Step();
      if !ok { Discard(tmp); return; }
      ok := Step();
      if !ok { Discard(tmp); }
    }

    /** A complete copy of src under a temporary name beside dst, or at most a new file of that name. */
    method CopyBeside(src: Path, dst: Path) returns (tmp: Path, ok: bool)
      requires src in files && dst !in files && src != dst
      modifies this`files, this`tape, this`dead, this`clash
      ensures old(clash) ==> clash
      ensures !clash ==> tmp != src && tmp != dst && tmp !in old(files) && Temporary(cfg, dst, tmp)
      ensures !clash ==> forall p :: p != tmp ==> SameAt(old(files), files, p)
      ensures !clash && ok ==> !dead && files == old(files)[tmp := old(files)[src]]
    {
      tmp := Stamp(dst, true);
      ok := Step();
      if ok { ok := CopyTo(src, tmp); }
    }

    /** Copies src beside dst under a temporary name, then puts the copy in place and removes src. */
    method CopyThenSwap(src: Path, dst: Path) returns (ok: bool)
      requires src in files && dst !in files && src != dst
      modifies this`files, this`tape, this`dead, this`clash
      ensures old(clash) ==> clash
      ensures !clash ==> Moving(cfg, old(files), files, src, dst)
      ensures !clash && ok ==> src !in files && dst in files
      ensures !clash && !ok && !dead ==> src in files
    {
      var tmp;
      tmp, ok := CopyBeside(src, dst);
      assert !clash ==> SameAt(old(files), files, src) && SameAt(old(files), files, dst);
      if !ok { return; }
      var renamed := Rename(tmp, dst);
      if renamed != Ok { Discard(tmp); return false; }
      ok := Remove(src);
    }

    /** A rename, or a copy when renaming does not work. */
    method MoveFileAtomic(src: Path, dst: Path) returns (ok: bool)
      requires src in files && dst !in files && src != dst
      modifies this`files, this`tape, this`dead, this`clash
      ensures old(clash) ==> clash
      ensures !clash ==> Moving(cfg, old(files), files, src, dst)
      ensures !clash && ok ==> src !in files && dst in files
      ensures !clash && !ok && !dead ==> src in files
      ensures old(Quiet(1)) ==> ok && clash == old(clash) && files == Relocated(old(files), src, dst)
      ensures old(Quiet(1)) ==> Quiet(|old(tape)| - 1)
    {
      var r := Rename(src, dst);
      if r == Ok { return true; }
      if dead { return false; }
      ok := CopyThenSwap(src, dst);
    }

    /** A path that is not taken: the first free of the numbered ones, else one from the clock. */
    method UniquePath(dst: Path) returns (c: Path)
      requires dst in files
      modifies this`tape, this`dead, this`clash
      ensures old(clash) ==> clash
      ensures !clash ==> c !in files
      ensures (exists i: nat :: c == cfg.dup(dst, i)) || (exists stamp: nat :: c == cfg.stamped(dst, stamp))
      ensures forall i: nat :: 1 <= i <= 999 && cfg.dup(dst, i) !in files
                               && (forall k: nat :: 1 <= k < i ==> cfg.dup(dst, k) in files) ==>
                c == cfg.dup(dst, i) && clash == old(clash)
      ensures (forall i: nat :: 1 <= i <= 999 ==> cfg.dup(dst, i) in files) ==> exists stamp: nat :: c == cfg.stamped(dst, stamp)
      ensures old(Quiet(1)) ==> Quiet(|old(tape)| - 1)
    {
      for i := 1 to MaxDup + 1
        invariant forall k: nat :: 1 <= k < i ==> cfg.dup(dst, k) in files
      {
        if cfg.dup(dst, i) !in files { return cfg.dup(dst, i); }
      }
      c := Stamp(dst, false);
    }

    /** A rejected file goes to the other tree, under a name that is not taken. */
    method MoveToNotMatch(src: Path, cid: int) returns (ghost at: Path)
      requires src in files
      modifies this`files, this`tape, this`dead, this`clash
      ensures old(clash) ==> clash
      ensures !clash ==> Kept(old(files), files, src, at)
      ensures !clash && Separate(cfg) ==> Checked(cfg, old(files), files)
      ensures old(Quiet(3)) && !old(clash) ==>
        var dst := cfg.reject(src, cid, old(tape)[0].stamp);
        dst !in old(files) ==> files == Relocated(old(files), src, dst)
      ensures old(Quiet(4)) && !clash ==>
        Quiet(|old(tape)| - 4) && files == Relocated(old(files), src, at) && Reject(cfg, at)
    {
      at := src;
      var e := Next();
      var target := cfg.reject(src, cid, e.stamp);
      var made := Step();
      if !made || clash { return; }
      if target in files { target := UniquePath(target); }
      if clash || dead { return; }
      var _ := MoveFileAtomic(src, target);
      if !clash {
        MovingKeeps(cfg, old(files), files, src, target);
        if Separate(cfg) { RejectedChecked(cfg, old(files), files); }
      }
      at := if src in files then src else target;
    }

    /** A file whose id is known and whose MD5 is the recorded one goes to the archive tree unless something is there;
        everything else is rejected. */
    method ProcessOne(src: Path) returns (ghost at: Path)
      requires src in files
      modifies this`files, this`tape, this`dead, this`clash
      ensures old(clash) ==> clash
      ensures !clash ==> Kept(old(files), files, src, at)
      ensures !clash && Separate(cfg) ==> Checked(cfg, old(files), files)
      ensures old(Quiet(7)) && !old(clash) ==> var dst := Destination(cfg, old(files), src, old(tape));
        dst !in old(files) ==> files == Relocated(old(files), src, dst)
      ensures old(Quiet(8)) && !clash ==>
        Quiet(|old(tape)| - 8) && files == Relocated(old(files), src, at) && Target(cfg, at)
    {
      at := src;
      var cid := cfg.cidOf(src);
      if cid.None? { at := MoveToNotMatch(src, 0); return; }
      var readable := Step();
      if dead { return; }
      if !readable { at := MoveToNotMatch(src, cid.value); return; }
      var found := Step();
      if dead { return; }
      if !found || cfg.expected(cid.value) != Some(cfg.md5(files[src])) { at := MoveToNotMatch(src, cid.value); return; }
      at := MoveToArchive(src, cid.value);
    }

    /** A file that belongs into the archive goes there, unless something is there or the move fails. */
    method MoveToArchive(src: Path, cid: int) returns (ghost at: Path)
      requires src in files && cfg.expected(cid) == Some(cfg.md5(files[src]))
      modifies this`files, this`tape, this`dead, this`clash
      ensures old(clash) ==> clash
      ensures !clash ==> Kept(old(files), files, src, at)
      ensures !clash && Separate(cfg) ==> Checked(cfg, old(files), files)
      ensures old(Quiet(5)) && !old(clash) ==>
        var dst := cfg.archive(cid, old(tape)[0].stamp);
        var other := cfg.reject(src, cid, old(tape)[2].stamp);
        if dst !in old(files) then files == Relocated(old(files), src, dst)
        else other !in old(files) ==> files == Relocated(old(files), src, other)
      ensures old(Quiet(6)) && !clash ==>
        Quiet(|old(tape)| - 6) && files == Relocated(old(files), src, at) && Target(cfg, at)
    {
      at := src;
      var e := Next();
      var dest := cfg.archive(cid, e.stamp);
      var made := Step();
      if dead { return; }
      if !made || dest in files { at := MoveToNotMatch(src, cid); return; }
      var ok := MoveFileAtomic(src, dest);
      if clash { return; }
      MovingKeeps(cfg, old(files), files, src, dest);
      at := if src in files then src else dest;
      if Separate(cfg) { ArchivedChecked(cfg, old(files), files, src, cid, e.stamp); }
      if !ok && !dead {
        ghost var middle := files;
        at := MoveToNotMatch(src, cid);
        if !clash {
          KeptAgain(old(files), middle, files, src, at);
          if Separate(cfg) { CheckedTrans(cfg, old(files), middle, files, src, at); }
        }
      }
    }

    /** All candidates one after the other; a file that fails does not stop the others. At every point at which the
        process may die, every file is complete at a place of its own, and files that are no candidates are untouched.
        When every operation succeeds, each candidate ends where files are sorted to. */
    method RunOnce(candidates: seq<Path>)
      requires Found(files, candidates)
      modifies this`files, this`tape, this`dead, this`clash
      ensures !clash ==> Lossless(old(files), files, candidates)
      ensures !clash && Separate(cfg) ==> Checked(cfg, old(files), files)
      ensures old(Quiet(8 * |candidates|)) && !clash ==> Delivered(cfg, old(files), files, candidates)
    {
      ghost var place := map p | p in files :: p;
      ghost var quiet := Quiet(8 * |candidates|);
      for i := 0 to |candidates|
        invariant !clash ==> Sorted(cfg, old(files), files, place, candidates, i)
        invariant quiet && !clash ==> Quiet(8 * (|candidates| - i)) && AllTargets(cfg, place, candidates[..i])
      {
        if clash { return; }
        SortedSoFar(cfg, old(files), files, place, candidates, i);
        if dead { return; }
        CandidateThere(cfg, old(files), files, place, candidates, i);
        ghost var now := files;
        var at := ProcessOne(candidates[i]);
        if !clash { SortedNext(cfg, old(files), now, files, place, candidates, i, at); }
        if quiet && !clash { TargetsNext(cfg, place, candidates, i, at); }
        place := place[candidates[i] := at];
      }
      assert candidates[..|candidates|] == candidates;
      if !clash {
        SortedSoFar(cfg, old(files), files, place, candidates, |candidates|);
        if quiet { SortedIsDelivered(cfg, old(files), files, place, candidates); }
      }
    }
  }
}
