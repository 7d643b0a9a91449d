/** Versions of archives: written into file names, read back from them, and carried along by repeated packing. */
module Versions {
  import opened Decimal
  import opened Text
  import opened ReplicaModel
  import ReplicaSafety

  const MaxInt := 0x7fff_ffff_ffff_ffff

  // ---- reading a version ----

  /** The end of the run of digits that starts at i. */
  function RunEnd(s: string, i: nat): (j: nat)
    requires i <= |s|
    ensures i <= j <= |s| && AllDigits(s[i..j]) && (j < |s| ==> !IsDigit(s[j]))
    decreases |s| - i
  {
    if i < |s| && IsDigit(s[i]) then
      var j := RunEnd(s, i + 1);
      assert s[i..j] == [s[i]] + s[i + 1..j];
      j
    else i
  }

  /** At p stands "-v", digits and a dot, and no line ends after that. */
  predicate VersionAt(s: string, p: nat) {
    && p + 2 < |s| && s[p] == '-' && s[p + 1] == 'v' && IsDigit(s[p + 2])
    && RunEnd(s, p + 2) < |s| && s[RunEnd(s, p + 2)] == '.'
    && Free(s[p..], '\n')
  }

  /** The last such place before n, or -1: the expression in front of it is greedy. */
  function LastVersion(s: string, n: nat): (p: int)
    ensures -1 <= p < n && (p >= 0 ==> VersionAt(s, p))
    ensures forall q :: p < q < n ==> !VersionAt(s, q)
  {
    if n == 0 then -1
    else if VersionAt(s, n - 1) then n - 1
    else LastVersion(s, n - 1)
  }

  /** Numbers that do not fit are read as the largest integer. */
  function VersionValue(s: string, p: nat): nat
    requires VersionAt(s, p)
  {
    var v := Read(s[p + 2..RunEnd(s, p + 2)]);
    if v <= MaxInt then v else MaxInt
  }

  function ParseVersion(base: string): nat {
    var p := LastVersion(base, |base|);
    if p >= 0 && VersionValue(base, p) > 0 then VersionValue(base, p) else 1
  }

  // ---- writing a version ----

  function ShowInt(n: int): string {
    if n < 0 then "-" + Show(-n) else Show(n)
  }

  /** The first archive of an id has no version in its name, later ones do. */
  function Printed(id: int, version: nat, suffix: string): string {
    if version == 1 then ShowInt(id) + suffix else ShowInt(id) + "-v" + Show(version) + suffix
  }

  /** A file name extension on one line. */
  predicate Extension(suffix: string) {
    suffix != "" && suffix[0] == '.' && Free(suffix, '\n')
  }

  predicate HasVersion(s: string) {
    LastVersion(s, |s|) >= 0
  }

  lemma {:induction false} RunEndShift(a: string, b: string, i: nat)
    requires i <= |b|
    ensures RunEnd(a + b, |a| + i) == |a| + RunEnd(b, i)
    decreases |b| - i
  {
    if i < |b| && IsDigit(b[i]) { RunEndShift(a, b, i + 1); }
  }

  lemma VersionAtShift(a: string, b: string, p: nat)
    ensures VersionAt(a + b, |a| + p) <==> VersionAt(b, p)
    ensures VersionAt(b, p) ==> VersionValue(a + b, |a| + p) == VersionValue(b, p)
  {
    if p + 2 < |b| {
      RunEndShift(a, b, p + 2);
      var e := RunEnd(b, p + 2);
      assert (a + b)[|a| + p..] == b[p..];
      assert (a + b)[|a| + p + 2..|a| + e] == b[p + 2..e];
    }
  }

  lemma LastVersionIs(s: string, p: int)
    requires -1 <= p < |s| && (p >= 0 ==> VersionAt(s, p)) && forall q :: p < q < |s| ==> !VersionAt(s, q)
    ensures LastVersion(s, |s|) == p
  {
    var r := LastVersion(s, |s|);
    assert r <= p && p <= r;
  }

  /** A version in the suffix is the last one whatever stands before it. */
  lemma SuffixDecides(a: string, suffix: string)
    requires HasVersion(suffix)
    ensures ParseVersion(a + suffix) == ParseVersion(suffix)
  {
    var p := LastVersion(suffix, |suffix|);
    VersionAtShift(a, suffix, p);
    forall q | |a| + p < q < |a + suffix| ensures !VersionAt(a + suffix, q) {
      VersionAtShift(a, suffix, q - |a|);
    }
    LastVersionIs(a + suffix, |a| + p);
  }

  /** Only at its sign, an id with a suffix could be mistaken for a version, and there a digit follows. */
  lemma NoVersionInId(id: int, rest: string, q: nat)
    requires q < |ShowInt(id)|
    ensures !VersionAt(ShowInt(id) + rest, q)
  {
    var s := ShowInt(id) + rest;
    if q == 0 && id < 0 {
      assert s[1] == Show(-id)[0];
    } else {
      assert s[q] == ShowInt(id)[q] && IsDigit(s[q]);
    }
  }

  lemma RunEndOf(digits: string, rest: string)
    requires AllDigits(digits) && rest != "" && !IsDigit(rest[0])
    ensures RunEnd(digits + rest, 0) == |digits|
  {
    RunEndFrom(digits, rest, 0);
  }

  lemma {:induction false} RunEndFrom(digits: string, rest: string, i: nat)
    requires AllDigits(digits) && rest != "" && !IsDigit(rest[0]) && i <= |digits|
    ensures RunEnd(digits + rest, i) == |digits|
    decreases |digits| - i
  {
    if i < |digits| { RunEndFrom(digits, rest, i + 1); }
  }

  /** "-v<n><suffix>" has a version at its start and none before the suffix. */
  lemma VersionTail(n: nat, suffix: string)
    requires Extension(suffix)
    ensures var t := "-v" + (Show(n) + suffix);
            && VersionAt(t, 0) && VersionValue(t, 0) == (if n <= MaxInt then n else MaxInt)
            && forall q :: 0 < q < 2 + |Show(n)| ==> !VersionAt(t, q)
  {
    var t := "-v" + (Show(n) + suffix);
    RunEndOf(Show(n), suffix);
    RunEndShift("-v", Show(n) + suffix, 0);
    assert t[2..2 + |Show(n)|] == Show(n);
    ReadShow(n);
    assert t[2] == Show(n)[0] && t[2 + |Show(n)|] == suffix[0];
    assert t[0..] == t;
    forall i | 0 <= i < |t| ensures t[i] != '\n' {
      if 2 <= i < 2 + |Show(n)| { assert t[i] == Show(n)[i - 2]; }
      else if i >= 2 + |Show(n)| { assert t[i] == suffix[i - 2 - |Show(n)|]; }
    }
    forall q | 0 < q < 2 + |Show(n)| ensures t[q] != '-' {
      if q >= 2 { assert t[q] == Show(n)[q - 2]; }
    }
  }

  lemma ParseFrom(a: string, b: string, p: nat)
    requires VersionAt(b, p) && forall q :: |a| + p < q < |a + b| ==> !VersionAt(a + b, q)
    ensures ParseVersion(a + b) == if VersionValue(b, p) > 0 then VersionValue(b, p) else 1
  {
    VersionAtShift(a, b, p);
    LastVersionIs(a + b, |a| + p);
  }

  /** Reading undoes writing for every suffix that has no version of its own; if it has one, that is what is read. */
  lemma ParsePrinted(id: int, n: nat, suffix: string)
    requires Extension(suffix) && 1 <= n <= MaxInt
    ensures ParseVersion(Printed(id, n, suffix)) == if HasVersion(suffix) then ParseVersion(suffix) else n
  {
    var head, s := ShowInt(id), Printed(id, n, suffix);
    var tail := if n == 1 then suffix else "-v" + (Show(n) + suffix);
    assert s == head + tail;
    var before := if n == 1 then head else head + "-v" + Show(n);
    assert s == before + suffix;
    if HasVersion(suffix) {
      SuffixDecides(before, suffix);
    } else {
      forall q | |before| <= q < |s| ensures !VersionAt(s, q) {
        VersionAtShift(before, suffix, q - |before|);
      }
      if n == 1 {
        forall q | 0 <= q < |s| ensures !VersionAt(s, q) {
          if q < |head| { NoVersionInId(id, suffix, q); }
        }
        LastVersionIs(s, -1);
      } else {
        VersionTail(n, suffix);
        forall q | |head| < q < |s| ensures !VersionAt(s, q) {
          if q < |before| { VersionAtShift(head, tail, q - |head|); }
        }
        ParseFrom(head, tail, 0);
      }
    }
  }

  // ---- different names ----

  lemma ShowInjective(a: nat, b: nat, x: string, y: string)
    requires Show(a) + x == Show(b) + y
    requires x != "" && y != "" && !IsDigit(x[0]) && !IsDigit(y[0])
    ensures a == b && x == y
  {
    DigitsThen(Show(a), Show(b), x, y);
    ReadShow(a);
    ReadShow(b);
  }

  lemma Sign(n: int, x: string, s: string)
    requires s == ShowInt(n) + x
    ensures s != "" && (s[0] == '-' <==> n < 0)
    ensures n < 0 ==> s[1..] == Show(-n) + x
    ensures n >= 0 ==> s == Show(n) + x
  {
    assert s[0] == ShowInt(n)[0];
    if n < 0 {
      assert s == "-" + (Show(-n) + x);
    } else {
      assert IsDigit(Show(n)[0]);
    }
  }

  lemma ShowIntInjective(a: int, b: int, x: string, y: string)
    requires ShowInt(a) + x == ShowInt(b) + y
    requires x != "" && y != "" && !IsDigit(x[0]) && !IsDigit(y[0])
    ensures a == b && x == y
  {
    var s := ShowInt(a) + x;
    Sign(a, x, s);
    Sign(b, y, s);
    if a < 0 { ShowInjective(-a, -b, x, y); } else { ShowInjective(a, b, x, y); }
  }

  /** What follows the id in a file name. */
  function Tail(version: nat, suffix: string): string {
    if version == 1 then suffix else "-v" + (Show(version) + suffix)
  }

  lemma TailInjective(m: nat, n: nat, suffix: string)
    requires Extension(suffix) && Tail(m, suffix) == Tail(n, suffix)
    ensures m == n
  {
    assert (m == 1) == (Tail(m, suffix)[0] == '.') && (n == 1) == (Tail(n, suffix)[0] == '.');
    if m != 1 {
      assert Tail(m, suffix)[2..] == Show(m) + suffix && Tail(n, suffix)[2..] == Show(n) + suffix;
      ShowInjective(m, n, suffix, suffix);
    }
  }

  lemma PrintedTail(id: int, version: nat, suffix: string)
    ensures Printed(id, version, suffix) == ShowInt(id) + Tail(version, suffix)
  {
  }

  /** Different ids or versions have different file names. */
  lemma PrintedInjective(a: int, m: nat, b: int, n: nat, suffix: string)
    requires Extension(suffix) && Printed(a, m, suffix) == Printed(b, n, suffix)
    ensures a == b && m == n
  {
    PrintedTail(a, m, suffix);
    PrintedTail(b, n, suffix);
    ShowIntInjective(a, b, Tail(m, suffix), Tail(n, suffix));
    TailInjective(m, n, suffix);
  }

  // ---- repeated packing ----

  /** The default destination of the next pack: beside the recorded archive with the next version, or the first
      archive in the default directory. */
  function NextPath(w: World, id: int, dir: string, suffix: string): Name {
    if id in w.index && ValidMeta(w.index[id])
    then
      var path := w.index[id].path;
      Name(path.dir, ShowInt(id) + "-v" + Show(ParseVersion(path.base) + 1) + suffix)
    else Name(dir, ShowInt(id) + suffix)
  }

  /** The name that version k of an id gets. */
  function PathOf(id: int, k: nat, dir: string, suffix: string): Name { Name(dir, Printed(id, k, suffix)) }

  predicate PathAndVersion(m: Meta, id: int, k: nat, dir: string, suffix: string) {
    m.id == id && m.version == k && m.path == PathOf(id, k, dir, suffix)
  }

  /** The record after k packs: version k, and all earlier versions in order in a flat history. */
  ghost predicate Lineage(m: Meta, id: int, k: nat, dir: string, suffix: string) {
    && k >= 1 && PathAndVersion(m, id, k, dir, suffix)
    && |m.history| == k - 1
    && forall i :: 0 <= i < k - 1 ==> m.history[i].history == [] && PathAndVersion(m.history[i], id, i + 1, dir, suffix)
  }

  /** The index after k packs of an id. */
  ghost predicate PackedTimes(w: World, id: int, k: nat, dir: string, suffix: string) {
    if k == 0 then id !in w.index else id in w.index && Lineage(w.index[id], id, k, dir, suffix)
  }

  /** The record a pack writes continues the line. */
  lemma FreshContinues(cfg: Config, w: World, w1: World, id: int, k: nat, dir: string, suffix: string)
    requires cfg.parseVersion == ParseVersion && Extension(suffix) && !HasVersion(suffix)
    requires id != 0 && k < MaxInt && PackedTimes(w, id, k, dir, suffix) && NextPath(w, id, dir, suffix) in w1.files
    ensures NextPath(w, id, dir, suffix) == PathOf(id, k + 1, dir, suffix)
    ensures Lineage(Fresh(cfg, w1, id, NextPath(w, id, dir, suffix), HistoryOf(w, id)), id, k + 1, dir, suffix)
  {
    NextIs(w, id, k, dir, suffix);
    ParsePrinted(id, k + 1, suffix);
    HistoryLine(w, id, k, dir, suffix);
  }

  /** The history a pack takes over: all versions so far, flat and in order. */
  lemma HistoryLine(w: World, id: int, k: nat, dir: string, suffix: string)
    requires PackedTimes(w, id, k, dir, suffix)
    ensures var h := HistoryOf(w, id);
            |h| == k && forall i :: 0 <= i < k ==> h[i].history == [] && PathAndVersion(h[i], id, i + 1, dir, suffix)
  {
  }

  lemma NextIs(w: World, id: int, k: nat, dir: string, suffix: string)
    requires Extension(suffix) && !HasVersion(suffix) && id != 0 && k < MaxInt && PackedTimes(w, id, k, dir, suffix)
    ensures NextPath(w, id, dir, suffix) == PathOf(id, k + 1, dir, suffix)
  {
    if k > 0 {
      ParsePrinted(id, k, suffix);
      NameNotEmpty(id, k, suffix);
    }
  }

  lemma NameNotEmpty(id: int, k: nat, suffix: string)
    ensures Printed(id, k, suffix) != ""
  {
    assert ShowInt(id) != "";
  }

  lemma SendKeepsLine(cfg: Config, w: World, m1: Meta, backend: string, prefix: string, k: nat, dir: string, suffix: string)
    requires Lineage(m1, m1.id, k, dir, suffix) && exists i :: 0 <= i < |m1.locators| && m1.locators[i].backend == backend
    ensures var r := Send(cfg, w, m1, backend, prefix);
            && r.meta.id == m1.id && Lineage(r.meta, m1.id, k, dir, suffix)
            && (r.s.Done? ==> PackedTimes(r.w, m1.id, k, dir, suffix))
  {
    assert Lineage(Confirmed(m1, backend, prefix), m1.id, k, dir, suffix);
  }

  /** Replication keeps the line: it changes locators only, in memory and in the index. */
  lemma ReplicateKeepsLine(cfg: Config, w: World, meta: Meta, backend: string, prefix: string, k: nat, dir: string, suffix: string)
    requires Lineage(meta, meta.id, k, dir, suffix)
    ensures var r := Replicate(cfg, w, meta, backend, prefix);
            && r.meta.id == meta.id && Lineage(r.meta, meta.id, k, dir, suffix)
            && (r.s.Done? ==> PackedTimes(r.w, meta.id, k, dir, suffix))
  {
    if ValidMeta(meta) && ValidBase(meta.path.base) {
      var m1 := Marked(meta, backend, prefix);
      assert Lineage(m1, meta.id, k, dir, suffix);
      SendKeepsLine(cfg, IndexPut(w, m1).w, m1, backend, prefix, k, dir, suffix);
    }
  }

  lemma {:induction false} ReplicateToKeepsLine(cfg: Config, w: World, meta: Meta, backends: seq<string>, prefix: string,
                                                k: nat, dir: string, suffix: string)
    requires Lineage(meta, meta.id, k, dir, suffix) && PackedTimes(w, meta.id, k, dir, suffix)
    ensures var r := ReplicateTo(cfg, w, meta, backends, prefix); r.s.Done? ==> PackedTimes(r.w, meta.id, k, dir, suffix)
    decreases |backends|
  {
    if backends != [] {
      ReplicateKeepsLine(cfg, w, meta, backends[0], prefix, k, dir, suffix);
      var r := Replicate(cfg, w, meta, backends[0], prefix);
      if r.s.Done? { ReplicateToKeepsLine(cfg, r.w, r.meta, backends[1..], prefix, k, dir, suffix); }
    }
  }

  /** One successful pack to the default destination. */
  lemma PackContinues(cfg: Config, w: World, id: int, k: nat, dir: string, suffix: string, backends: seq<string>, prefix: string)
    requires cfg.parseVersion == ParseVersion && Extension(suffix) && !HasVersion(suffix)
    requires k < MaxInt && PackedTimes(w, id, k, dir, suffix)
    ensures var r := Archive(cfg, w, id, NextPath(w, id, dir, suffix), backends, prefix);
            r.s.Done? ==> PackedTimes(r.w, id, k + 1, dir, suffix)
  {
    var dest := NextPath(w, id, dir, suffix);
    var r := Archive(cfg, w, id, dest, backends, prefix);
    if r.s.Done? {
      var hash := Probe(Pack(Probe(w).w, dest).w);
      FreshContinues(cfg, w, hash.w, id, k, dir, suffix);
      var meta := Fresh(cfg, hash.w, id, dest, HistoryOf(w, id));
      assert Record(hash.w, meta).s.Done?;
      ReplicateToKeepsLine(cfg, Record(hash.w, meta).w, meta, backends, prefix, k + 1, dir, suffix);
    }
  }

  /** Packing one id again and again, each time with the tape the environment plays. */
  datatype Request = Request(tape: seq<Event>, backends: seq<string>, prefix: string)

  function PackAll(cfg: Config, w: World, id: int, dir: string, suffix: string, requests: seq<Request>): Out {
    if requests == [] then Out(w, Done)
    else
      var last := requests[|requests| - 1];
      var before := PackAll(cfg, w, id, dir, suffix, requests[..|requests| - 1]);
      if !before.s.Done? then before
      else
        PackOne(cfg, before.w, id, dir, suffix, last)
  }

  function PackOne(cfg: Config, w: World, id: int, dir: string, suffix: string, request: Request): Out {
    var w1 := w.(tape := request.tape);
    Archive(cfg, w1, id, NextPath(w1, id, dir, suffix), request.backends, request.prefix)
  }

  lemma PackOneContinues(cfg: Config, w: World, id: int, k: nat, dir: string, suffix: string, request: Request)
    requires cfg.parseVersion == ParseVersion && Extension(suffix) && !HasVersion(suffix)
    requires k < MaxInt && PackedTimes(w, id, k, dir, suffix)
    ensures var r := PackOne(cfg, w, id, dir, suffix, request); r.s.Done? ==> PackedTimes(r.w, id, k + 1, dir, suffix)
  {
    PackContinues(cfg, w.(tape := request.tape), id, k, dir, suffix, request.backends, request.prefix);
  }

  /** After k successful packs the record has version k and every earlier version is in its flat history, in order and
      under its own path. */
  lemma {:induction false} VersionsCount(cfg: Config, w: World, id: int, dir: string, suffix: string, requests: seq<Request>)
    requires cfg.parseVersion == ParseVersion && Extension(suffix) && !HasVersion(suffix)
    requires id !in w.index && |requests| <= MaxInt
    ensures var r := PackAll(cfg, w, id, dir, suffix, requests);
            r.s.Done? ==> PackedTimes(r.w, id, |requests|, dir, suffix)
    decreases |requests|
  {
    if requests != [] {
      var n := |requests| - 1;
      VersionsCount(cfg, w, id, dir, suffix, requests[..n]);
      PackAllLast(cfg, w, id, dir, suffix, requests);
      var before := PackAll(cfg, w, id, dir, suffix, requests[..n]);
      if before.s.Done? { PackOneContinues(cfg, before.w, id, n, dir, suffix, requests[n]); }
    }
  }

  lemma PackAllLast(cfg: Config, w: World, id: int, dir: string, suffix: string, requests: seq<Request>)
    requires requests != []
    ensures var n := |requests| - 1;
            var before := PackAll(cfg, w, id, dir, suffix, requests[..n]);
            PackAll(cfg, w, id, dir, suffix, requests)
            == if before.s.Done? then PackOne(cfg, before.w, id, dir, suffix, requests[n]) else before
  {
  }

  lemma LineagePathsDiffer(m: Meta, id: int, k: nat, dir: string, suffix: string, i: nat, j: nat)
    requires Lineage(m, id, k, dir, suffix) && Extension(suffix) && i < j < k - 1
    ensures m.history[i].path != m.history[j].path && m.history[i].path != m.path
  {
    if Printed(id, i + 1, suffix) == Printed(id, j + 1, suffix) {
      PrintedInjective(id, i + 1, id, j + 1, suffix);
    }
    if Printed(id, i + 1, suffix) == Printed(id, k, suffix) {
      PrintedInjective(id, i + 1, id, k, suffix);
    }
  }

  /** The default destination is not the recorded path of any id, as long as the recorded archives have names of this
      kind and the index knows the last one of this id. So default packs do not write over recorded archives. */
  lemma NextPathIsFree(w: World, id: int, k: nat, dir: string, suffix: string, other: int, version: nat)
    requires Extension(suffix) && !HasVersion(suffix) && id != 0 && k < MaxInt && PackedTimes(w, id, k, dir, suffix)
    requires other in w.packed && w.packed[other].path.base == Printed(other, version, suffix)
    requires other == id ==> version <= k
    ensures NextPath(w, id, dir, suffix) != w.packed[other].path
  {
    NextIs(w, id, k, dir, suffix);
    if Printed(id, k + 1, suffix) == Printed(other, version, suffix) {
      PrintedInjective(id, k + 1, other, version, suffix);
    }
  }

  // ---- the id that owns a name ----

  /** The number a text starts with. */
  function Leading(s: string): nat { Read(s[..RunEnd(s, 0)]) }

  function LeadingId(base: string): int {
    if base != "" && base[0] == '-' then 0 - Leading(base[1..]) as int else Leading(base)
  }

  lemma LeadingShown(n: nat, rest: string)
    requires rest != "" && !IsDigit(rest[0])
    ensures Leading(Show(n) + rest) == n
  {
    RunEndOf(Show(n), rest);
    assert (Show(n) + rest)[..|Show(n)|] == Show(n);
    ReadShow(n);
  }

  /** Every name printed for an id starts with it. */
  lemma PrintedOwner(id: int, version: nat, suffix: string)
    requires Extension(suffix)
    ensures LeadingId(Printed(id, version, suffix)) == id
  {
    PrintedTail(id, version, suffix);
    ShownOwner(id, Tail(version, suffix));
  }

  lemma ShownOwner(id: int, rest: string)
    requires rest != "" && !IsDigit(rest[0])
    ensures LeadingId(ShowInt(id) + rest) == id
  {
    Sign(id, rest, ShowInt(id) + rest);
    if id < 0 { LeadingShown(-id, rest); } else { LeadingShown(id, rest); }
  }

  /** So does every default destination. */
  lemma NextPathOwner(w: World, id: int, dir: string, suffix: string)
    requires Extension(suffix)
    ensures LeadingId(NextPath(w, id, dir, suffix).base) == id
  {
    if id in w.index && ValidMeta(w.index[id]) {
      var n := ParseVersion(w.index[id].path.base) + 1;
      PrintedOwner(id, n, suffix);
      assert n > 1;
    } else {
      PrintedOwner(id, 1, suffix);
    }
  }

  /** A call that packs to the default destination it finds, or any other. */
  datatype Call = PackDefault(id: int, dir: string, suffix: string, request: Request) | Given(op: Op)

  function OpOf(w: World, call: Call): Op {
    match call
    case PackDefault(id, dir, suffix, request) =>
      ArchiveOp(request.tape, id, NextPath(w, id, dir, suffix), request.backends, request.prefix)
    case Given(op) => op
  }

  ghost predicate CallOk(cfg: Config, call: Call) {
    match call
    case PackDefault(_, _, suffix, _) => Extension(suffix)
    case Given(op) => ReplicaSafety.OpOk(cfg, op)
  }

  function RunCalls(cfg: Config, w: World, calls: seq<Call>): World
    decreases |calls|
  {
    if calls == [] then w else RunCalls(cfg, Apply(cfg, w, OpOf(w, calls[0])), calls[1..])
  }

  lemma DefaultOk(cfg: Config, w: World, call: Call)
    requires cfg.owner == LeadingId && CallOk(cfg, call)
    ensures ReplicaSafety.OpOk(cfg, OpOf(w, call))
  {
    match call
    case PackDefault(id, dir, suffix, _) => NextPathOwner(w, id, dir, suffix);
    case Given(_) =>
  }

  lemma {:induction false} CallsGrow(cfg: Config, w: World, calls: seq<Call>)
    requires cfg.owner == LeadingId && forall i :: 0 <= i < |calls| ==> CallOk(cfg, calls[i])
    ensures w.faults <= RunCalls(cfg, w, calls).faults
    decreases |calls|
  {
    if calls != [] {
      DefaultOk(cfg, w, calls[0]);
      ReplicaSafety.ApplyKeeps(cfg, w, OpOf(w, calls[0]));
      CallsGrow(cfg, Apply(cfg, w, OpOf(w, calls[0])), calls[1..]);
    }
  }

  /** Files belong to the id their name starts with, so runs whose packs go to default destinations, for any ids,
      directories and extensions, keep every copy safe unless a fault is raised. */
  lemma {:induction false} DefaultSafety(cfg: Config, w: World, calls: seq<Call>)
    requires cfg.owner == LeadingId && forall i :: 0 <= i < |calls| ==> CallOk(cfg, calls[i])
    requires ReplicaSafety.Safe(cfg, w)
    ensures RunCalls(cfg, w, calls).faults == {} ==> ReplicaSafety.Safe(cfg, RunCalls(cfg, w, calls))
    decreases |calls|
  {
    if calls != [] {
      var w1 := Apply(cfg, w, OpOf(w, calls[0]));
      DefaultOk(cfg, w, calls[0]);
      ReplicaSafety.ApplyKeeps(cfg, w, OpOf(w, calls[0]));
      if w1.faults == {} { DefaultSafety(cfg, w1, calls[1..]); } else { CallsGrow(cfg, w1, calls[1..]); }
    }
  }
}
