/** The names the archive sorter makes: archive paths, reject paths, duplicates and temporary files. */
module ArchiverNames {
  import opened Decimal
  import opened Text
  import ComicNames
  import Moves

  /** What stands in front of a name joined to a cleaned directory. */
  function Trunk(dir: string): string {
    if dir == "." then "" else if dir == "/" then "/" else dir + "/"
  }

  /** The place of an archive below a root. Ids that are not positive are named after the clock. */
  function ArchivePath(root: string, cid: int, clock: string): string {
    if cid <= 0 then Trunk(root) + ("unknown/" + clock + ".cocoma") else Trunk(root) + ComicNames.ArchiveKey(cid)
  }

  function Base(p: string): (b: string)
    ensures Free(b, '/')
  {
    var segs := Split(p, '/');
    segs[|segs| - 1]
  }

  /** A file without an id keeps its name. */
  function RejectPath(root: string, src: string, cid: int, clock: string): string {
    if cid == 0 then Trunk(root) + Base(src) else ArchivePath(root, cid, clock)
  }

  /** The path with another last element. */
  function Renamed(p: string, base: string): string {
    var segs := Split(p, '/');
    Join(segs[..|segs| - 1] + [base], '/')
  }

  /** Where the extension of a name starts: at its last dot, or at the end if it has none. */
  function ExtAt(base: string, i: nat): (e: nat)
    requires i <= |base|
    ensures e <= |base|
  {
    if i == 0 then |base| else if base[i - 1] == '.' then i - 1 else ExtAt(base, i - 1)
  }

  function DupBase(base: string, i: nat): string {
    var e := ExtAt(base, |base|);
    base[..e] + (".dup-" + Show(i)) + base[e..]
  }

  function Dup(p: string, i: nat): string { Renamed(p, DupBase(Base(p), i)) }

  function Stamped(p: string, nanos: nat): string { p + "." + Show(nanos) }

  function Temp(p: string, nanos: nat): string { p + ".tmp-" + Show(nanos) }

  /** The names of a configuration are those of the program, for these two directories and this clock. */
  ghost predicate ProgramNames(cfg: Moves.Config, archiveDir: string, notMatchDir: string, clock: nat -> string) {
    && (forall c, t :: cfg.archive(c, t) == ArchivePath(archiveDir, c, clock(t)))
    && (forall s, d, u :: cfg.reject(s, d, u) == RejectPath(notMatchDir, s, d, clock(u)))
    && (forall p, i :: cfg.dup(p, i) == Dup(p, i))
    && (forall p, n :: cfg.stamped(p, n) == Stamped(p, n))
    && (forall p, n :: cfg.temp(p, n) == Temp(p, n))
  }

  /** The reject directory is neither the archive directory nor one in which archives of some hundred ids lie. */
  ghost predicate Apart(archiveDir: string, notMatchDir: string) {
    && Trunk(notMatchDir) != Trunk(archiveDir)
    && forall c: nat :: c > 0 ==> Trunk(notMatchDir) != Hundred(archiveDir, c)
  }

  /** What stands in front of the archive names of an id. */
  function Hundred(archiveDir: string, cid: nat): string {
    Trunk(archiveDir) + ComicNames.StoragePrefix(cid) + "/"
  }

  // ---- last elements ----

  /** The last element behind a separator. */
  lemma {:induction false} BaseBehind(a: string, b: string)
    requires Free(b, '/')
    ensures Base(a + "/" + b) == b
  {
    var s := a + "/" + b;
    if a == "" {
      assert s[1..] == b;
      SplitFree(b, '/');
    } else {
      assert s[1..] == a[1..] + "/" + b;
      BaseBehind(a[1..], b);
      SplitLonger(a[1..], b);
    }
  }

  lemma {:induction false} SplitLonger(a: string, b: string)
    ensures |Split(a + "/" + b, '/')| >= 2
  {
    if a == "" {
      assert ("" + "/" + b)[1..] == b;
    } else {
      assert (a + "/" + b)[1..] == a[1..] + "/" + b;
      SplitLonger(a[1..], b);
    }
  }

  /** A name joined to a directory is the last element. */
  lemma BaseBelow(dir: string, b: string)
    requires Free(b, '/')
    ensures Base(Trunk(dir) + b) == b
  {
    SplitFree(b, '/');
    if dir == "." {
      assert Trunk(dir) + b == b;
    } else {
      var front := if dir == "/" then "" else dir;
      assert Trunk(dir) + b == front + "/" + b;
      BaseBehind(front, b);
    }
  }

  lemma ArchiveSplits(root: string, cid: nat, clock: string)
    requires cid > 0
    ensures ArchivePath(root, cid, clock) == Hundred(root, cid) + ComicNames.ArchiveName(cid)
  {
  }

  lemma ArchiveBase(root: string, cid: nat, clock: string)
    requires cid > 0
    ensures Base(ArchivePath(root, cid, clock)) == ComicNames.ArchiveName(cid)
  {
    var name := ComicNames.ArchiveName(cid);
    ComicNames.NameIsNormal(cid);
    assert ArchivePath(root, cid, clock) == (Trunk(root) + ComicNames.StoragePrefix(cid)) + "/" + name;
    BaseBehind(Trunk(root) + ComicNames.StoragePrefix(cid), name);
  }

  lemma RenamedBase(p: string, base: string)
    requires Free(base, '/')
    ensures Base(Renamed(p, base)) == base
  {
    var segs := Split(p, '/');
    SplitJoin(segs[..|segs| - 1] + [base], '/');
  }

  /** Only the last element changes. */
  lemma RenamedSame(p: string)
    ensures Renamed(p, Base(p)) == p
  {
    var segs := Split(p, '/');
    assert segs[..|segs| - 1] + [segs[|segs| - 1]] == segs;
    JoinSplit(p, '/');
  }

  lemma DupBaseFree(base: string, i: nat)
    requires Free(base, '/')
    ensures Free(DupBase(base, i), '/')
  {
  }

  lemma DupHasBase(p: string, i: nat)
    ensures Base(Dup(p, i)) == DupBase(Base(p), i)
  {
    DupBaseFree(Base(p), i);
    RenamedBase(p, DupBase(Base(p), i));
  }

  lemma RenamedAgain(p: string, base: string, again: string)
    requires Free(base, '/')
    ensures Renamed(Renamed(p, base), again) == Renamed(p, again)
  {
    var segs := Split(p, '/');
    var front := segs[..|segs| - 1];
    SplitJoin(front + [base], '/');
    assert (front + [base])[..|front|] == front;
  }

  /** A duplicate lies beside its file: with the old last element back it is the file's path. */
  lemma DupBeside(p: string, i: nat)
    ensures Renamed(Dup(p, i), Base(p)) == p
  {
    DupBaseFree(Base(p), i);
    RenamedAgain(p, DupBase(Base(p), i), Base(p));
    RenamedSame(p);
  }

  /** Equal lengths leave the number in one place. */
  lemma DupBaseTells(base: string, i: nat, j: nat)
    requires DupBase(base, i) == DupBase(base, j)
    ensures i == j
  {
    var e := ExtAt(base, |base|);
    NumberAt(base[..e], ".dup-", i, base[e..]);
    NumberAt(base[..e], ".dup-", j, base[e..]);
    assert |Show(i)| == |Show(j)|;
    ReadShow(i);
    ReadShow(j);
  }

  lemma NumberAt(stem: string, mark: string, i: nat, ext: string)
    ensures var s, k := stem + (mark + Show(i)) + ext, |stem| + |mark|;
            |s| == k + |Show(i)| + |ext| && s[k..k + |Show(i)|] == Show(i)
  {
  }

  /** The duplicates of a path are pairwise different and different from it. */
  lemma DupsDiffer(p: string, i: nat, j: nat)
    ensures Dup(p, i) != p
    ensures Dup(p, i) == Dup(p, j) ==> i == j
  {
    DupHasBase(p, i);
    DupHasBase(p, j);
    assert |DupBase(Base(p), i)| > |Base(p)|;
    if Dup(p, i) == Dup(p, j) { DupBaseTells(Base(p), i, j); }
  }

  // ---- names of different kinds ----

  /** In an archive name "c" follows the only dot, in the name of a duplicate "d" follows one. */
  lemma DupIsNoArchive(base: string, i: nat, cid: nat)
    ensures DupBase(base, i) != ComicNames.ArchiveName(cid)
  {
    var s, e := DupBase(base, i), ExtAt(base, |base|);
    assert e + 1 < |s| && s[e] == '.' && s[e + 1] == 'd';
    OnlyDot(cid);
  }

  lemma OnlyDot(cid: nat)
    ensures var name := ComicNames.ArchiveName(cid);
            forall k :: 0 <= k < |name| - 1 && name[k] == '.' ==> name[k + 1] == 'c'
  {
    var name, n := ComicNames.ArchiveName(cid), |Show(cid)|;
    forall k | 0 <= k < n ensures IsDigit(name[k]) { assert name[k] == Show(cid)[k]; }
    forall k | n <= k < |name| ensures name[k] == ".cocoma"[k - n] {}
  }

  /** An archive path ends in a letter, a stamped one in a digit. */
  lemma StampIsNoArchive(root: string, cid: nat, clock: string, p: string, nanos: nat)
    requires cid > 0
    ensures ArchivePath(root, cid, clock) != Stamped(p, nanos) && ArchivePath(root, cid, clock) != Temp(p, nanos)
  {
    var a, digits := ArchivePath(root, cid, clock), Show(nanos);
    assert a[|a| - 1] == ComicNames.ArchiveName(cid)[|ComicNames.ArchiveName(cid)| - 1] == 'a';
    var s, t := Stamped(p, nanos), Temp(p, nanos);
    assert s[|s| - 1] == digits[|digits| - 1] && t[|t| - 1] == digits[|digits| - 1];
  }

  lemma KeyStarts(cid: nat)
    ensures ComicNames.ArchiveKey(cid) != "" && IsDigit(ComicNames.ArchiveKey(cid)[0])
  {
    ComicNames.PrefixSegmentsAreDigits(cid);
    var segs := ComicNames.PrefixSegments(cid);
    assert segs[0] != "" && AllDigits(segs[0]);
    assert ComicNames.StoragePrefix(cid)[0] == segs[0][0];
  }

  lemma UnknownIsNoArchive(root: string, c: nat, x: string, d: int, y: string)
    requires c > 0 && d <= 0
    ensures ArchivePath(root, c, x) != ArchivePath(root, d, y)
  {
    KeyStarts(c);
    assert ArchivePath(root, c, x)[|Trunk(root)|] == ComicNames.ArchiveKey(c)[0];
    assert ArchivePath(root, d, y)[|Trunk(root)|] == 'u';
  }

  /** An archive path tells its id. */
  lemma ArchiveTellsId(root: string, c: int, x: string, d: int, y: string)
    requires c > 0 && ArchivePath(root, c, x) == ArchivePath(root, d, y)
    ensures c == d
  {
    if d <= 0 {
      UnknownIsNoArchive(root, c, x, d, y);
    } else if c != d {
      ArchiveBase(root, c, x);
      ArchiveBase(root, d, y);
      ComicNames.NamesDiffer(c, d);
    }
  }

  lemma SameEnd(a: string, b: string, name: string)
    requires a + name == b + name
    ensures a == b
  {
    assert (a + name)[..|a|] == a && (b + name)[..|b|] == b;
  }

  /** A rejected file without an id. */
  lemma RejectedName(a: string, b: string, c: nat, x: string, src: string, y: string)
    requires c > 0 && ArchivePath(a, c, x) == RejectPath(b, src, 0, y)
    ensures Trunk(b) == Hundred(a, c)
  {
    ArchiveSplits(a, c, x);
    ArchiveBase(a, c, x);
    BaseBelow(b, Base(src));
    SameEnd(Hundred(a, c), Trunk(b), ComicNames.ArchiveName(c));
  }

  /** A rejected archive. */
  lemma RejectedArchive(a: string, b: string, c: nat, x: string, d: nat, y: string)
    requires c > 0 && d > 0 && ArchivePath(a, c, x) == ArchivePath(b, d, y)
    ensures Trunk(a) == Trunk(b)
  {
    ArchiveBase(a, c, x);
    ArchiveBase(b, d, y);
    if c != d { ComicNames.NamesDiffer(c, d); }
    SameEnd(Trunk(a), Trunk(b), ComicNames.ArchiveKey(c));
  }

  lemma HundredEnds(root: string, cid: nat)
    ensures var h := Hundred(root, cid); |h| >= 2 && IsDigit(h[|h| - 2])
  {
    ComicNames.PrefixSegmentsAreDigits(cid);
    JoinEnds(ComicNames.PrefixSegments(cid));
  }

  lemma {:induction false} JoinEnds(segs: seq<string>)
    requires segs != [] && forall i :: 0 <= i < |segs| ==> segs[i] != "" && AllDigits(segs[i])
    ensures Join(segs, '/') != "" && IsDigit(Join(segs, '/')[|Join(segs, '/')| - 1])
  {
    if |segs| > 1 { JoinEnds(segs[1..]); }
  }

  /** A file of a negative id lies in a directory that is not named by digits. */
  lemma RejectedUnknown(a: string, b: string, c: nat, x: string, d: int, y: string)
    requires c > 0 && d < 0 && Free(y, '/')
    ensures ArchivePath(a, c, x) != ArchivePath(b, d, y)
  {
    var name := y + ".cocoma";
    assert ArchivePath(b, d, y) == (Trunk(b) + "unknown") + "/" + name;
    BaseBehind(Trunk(b) + "unknown", name);
    ArchiveSplits(a, c, x);
    ArchiveBase(a, c, x);
    HundredEnds(a, c);
    if ArchivePath(a, c, x) == ArchivePath(b, d, y) {
      SameEnd(Hundred(a, c), Trunk(b) + "unknown" + "/", name);
    }
  }

  lemma RejectIsNoArchive(a: string, b: string, c: nat, x: string, src: string, d: int, y: string)
    requires Apart(a, b) && c > 0 && Free(y, '/')
    ensures ArchivePath(a, c, x) != RejectPath(b, src, d, y)
  {
    if d < 0 {
      RejectedUnknown(a, b, c, x, d, y);
    } else if ArchivePath(a, c, x) == RejectPath(b, src, d, y) {
      if d == 0 { RejectedName(a, b, c, x, src, y); } else { RejectedArchive(a, b, c, x, d, y); }
    }
  }

  lemma DupPathIsNoArchive(root: string, c: nat, x: string, p: string, i: nat)
    requires c > 0
    ensures ArchivePath(root, c, x) != Dup(p, i)
  {
    ArchiveBase(root, c, x);
    DupHasBase(p, i);
    DupIsNoArchive(Base(p), i, c);
  }

  lemma DerivedApart(cfg: Moves.Config, archiveDir: string, notMatchDir: string, clock: nat -> string)
    requires ProgramNames(cfg, archiveDir, notMatchDir, clock)
    ensures forall c, t, p, i :: c > 0 ==> cfg.archive(c, t) != cfg.dup(p, i)
    ensures forall c, t, p, n :: c > 0 ==> cfg.archive(c, t) != cfg.stamped(p, n)
    ensures forall c, t, p, n :: c > 0 ==> cfg.archive(c, t) != cfg.temp(p, n)
  {
    forall c, t, p, i | c > 0 ensures cfg.archive(c, t) != cfg.dup(p, i) {
      DupPathIsNoArchive(archiveDir, c, clock(t), p, i);
    }
    forall c, t, p, n | c > 0 ensures cfg.archive(c, t) != cfg.stamped(p, n) {
      StampIsNoArchive(archiveDir, c, clock(t), p, n);
    }
    forall c, t, p, n | c > 0 ensures cfg.archive(c, t) != cfg.temp(p, n) {
      StampIsNoArchive(archiveDir, c, clock(t), p, n);
    }
  }

  lemma ApartSeparates(cfg: Moves.Config, archiveDir: string, notMatchDir: string, clock: nat -> string)
    requires ProgramNames(cfg, archiveDir, notMatchDir, clock) && Apart(archiveDir, notMatchDir)
    requires forall t :: Free(clock(t), '/')
    ensures Moves.Separate(cfg)
  {
    forall c, t, s, d, u | c > 0 ensures cfg.archive(c, t) != cfg.reject(s, d, u) {
      RejectIsNoArchive(archiveDir, notMatchDir, c, clock(t), s, d, clock(u));
    }
    DerivedApart(cfg, archiveDir, notMatchDir, clock);
    forall c, t, d, u | c > 0 && cfg.archive(c, t) == cfg.archive(d, u) ensures c == d {
      ArchiveTellsId(archiveDir, c, clock(t), d, clock(u));
    }
  }

  lemma MixedCollide(cfg: Moves.Config, archiveDir: string, notMatchDir: string, clock: nat -> string)
    requires ProgramNames(cfg, archiveDir, notMatchDir, clock) && !Apart(archiveDir, notMatchDir)
    ensures !Moves.Separate(cfg)
  {
    if Trunk(notMatchDir) == Trunk(archiveDir) {
      assert cfg.archive(1, 0) == cfg.reject("", 1, 0);
    } else {
      var c: nat :| c > 0 && Trunk(notMatchDir) == Hundred(archiveDir, c);
      var name := ComicNames.ArchiveName(c);
      ComicNames.NameIsNormal(c);
      SplitFree(name, '/');
      ArchiveSplits(archiveDir, c, clock(0));
      assert cfg.archive(c, 0) == cfg.reject(name, 0, 0);
    }
  }

  /** The program's names keep apart as the sorting asks if and only if the two directories do. */
  lemma NamesSeparate(cfg: Moves.Config, archiveDir: string, notMatchDir: string, clock: nat -> string)
    requires ProgramNames(cfg, archiveDir, notMatchDir, clock) && forall t :: Free(clock(t), '/')
    ensures Moves.Separate(cfg) <==> Apart(archiveDir, notMatchDir)
  {
    if Apart(archiveDir, notMatchDir) {
      ApartSeparates(cfg, archiveDir, notMatchDir, clock);
    } else {
      MixedCollide(cfg, archiveDir, notMatchDir, clock);
    }
  }
}
