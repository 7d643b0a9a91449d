/** Keys of stored objects and the remote paths they are kept at. Paths are cleaned lexically, segment by segment. */
module StoragePaths {
  import opened Text

  datatype Result = Ok(path: string) | Err

  const Dots := ".."

  /** What a segment does to the segments kept so far; only relative paths keep leading "..". */
  function Step(out: seq<string>, seg: string, rooted: bool): seq<string> {
    if seg == "" || seg == "." then out
    else if seg != Dots then out + [seg]
    else if out != [] && out[|out| - 1] != Dots then out[..|out| - 1]
    else if rooted then out
    else out + [Dots]
  }

  function Steps(segs: seq<string>, out: seq<string>, rooted: bool): seq<string>
    decreases |segs|
  {
    if segs == [] then out else Steps(segs[1..], Step(out, segs[0], rooted), rooted)
  }

  predicate Rooted(s: string) { s != "" && s[0] == '/' }

  /** The shortest equivalent of a path. */
  function Clean(s: string): string {
    var out := Steps(Split(s, '/'), [], Rooted(s));
    if Rooted(s) then "/" + Join(out, '/') else if out == [] then "." else Join(out, '/')
  }

  /** Joins from the first non-empty element on and cleans; nothing at all stays empty. */
  function JoinPath(elems: seq<string>): string {
    if elems == [] then ""
    else if elems[0] == "" then JoinPath(elems[1..])
    else Clean(Join(elems, '/'))
  }

  predicate HasPrefix(s: string, prefix: string) {
    |prefix| <= |s| && s[..|prefix|] == prefix
  }

  function TrimPrefix(s: string, prefix: string): string {
    if HasPrefix(s, prefix) then s[|prefix|..] else s
  }

  /** The normal form of a key; whatever starts with two dots is refused. */
  function Path(elems: seq<string>): Result {
    if elems == [] then Ok("/")
    else
      var p := JoinPath(elems);
      if HasPrefix(p, Dots) then Err
      else if HasPrefix(p, "/") then Ok(p)
      else Ok("/" + p)
  }

  /** Where a backend with the given root keeps a key. */
  function RemotePath(root: string, key: string): Result {
    match Path([key])
    case Err => Err
    case Ok(p) =>
      if p == "/" then Ok(root)
      else if root == "/" then Ok(p)
      else Path([root, TrimPrefix(p, "/")])
  }

  /** The key of a remote path, if it lies under the root. */
  function LogicalKey(root: string, remote: string): Result {
    match Path([remote])
    case Err => Err
    case Ok(normalized) =>
      if root == "/" then Ok(normalized)
      else if normalized == root then Ok("/")
      else if !HasPrefix(normalized, root + "/") then Err
      else Path([TrimPrefix(normalized, root + "/")])
  }

  // ---- normal segments ----

  predicate Normal(segs: seq<string>) {
    forall i :: 0 <= i < |segs| ==> segs[i] != "" && segs[i] != "." && segs[i] != Dots && Free(segs[i], '/')
  }

  function Absolute(segs: seq<string>): string { "/" + Join(segs, '/') }

  lemma {:induction false} NormalSteps(segs: seq<string>, out: seq<string>, rooted: bool)
    requires Normal(segs)
    ensures Steps(segs, out, rooted) == out + segs
    decreases |segs|
  {
    if segs != [] {
      NormalSteps(segs[1..], out + [segs[0]], rooted);
      assert out + segs == out + [segs[0]] + segs[1..];
    }
  }

  /** Cleaning an absolute path. */
  lemma CleanRooted(s: string)
    ensures Clean("/" + s) == "/" + Join(Steps(Split(s, '/'), [], true), '/')
  {
    assert ("/" + s)[1..] == s;
    assert Split("/" + s, '/') == [""] + Split(s, '/');
    assert ([""] + Split(s, '/'))[1..] == Split(s, '/');
  }

  /** Cleaning leaves an absolute path of normal segments alone. */
  lemma CleanAbsolute(segs: seq<string>)
    requires Normal(segs)
    ensures Clean(Absolute(segs)) == Absolute(segs)
  {
    CleanRooted(Join(segs, '/'));
    if segs == [] {
      assert Split("", '/') == [""] && [""][1..] == [];
    } else {
      SplitJoin(segs, '/');
      NormalSteps(segs, [], true);
      assert [] + segs == segs;
    }
  }

  lemma JoinStarts(segs: seq<string>)
    requires Normal(segs) && segs != []
    ensures Join(segs, '/') != "" && Join(segs, '/')[0] == segs[0][0] && segs[0][0] != '/'
    ensures HasPrefix(Join(segs, '/'), Dots) <==> HasPrefix(segs[0], Dots)
  {
    if |segs| > 1 {
      var j := segs[0] + "/" + Join(segs[1..], '/');
      assert Join(segs, '/') == j;
      if |segs[0]| == 1 { assert j[1] == '/'; }
      assert |segs[0]| >= 2 ==> j[..2] == segs[0][..2];
    }
  }

  /** Cleaning leaves a relative path of normal segments alone. */
  lemma CleanRelative(segs: seq<string>)
    requires Normal(segs) && segs != []
    ensures Clean(Join(segs, '/')) == Join(segs, '/')
  {
    JoinStarts(segs);
    SplitJoin(segs, '/');
    NormalSteps(segs, [], false);
    assert [] + segs == segs;
  }

  // ---- what Path returns ----

  /** Kept segments are not empty and not "."; ".." is only kept by relative paths, and only in front. */
  predicate Kept(out: seq<string>, rooted: bool) {
    && (forall i :: 0 <= i < |out| ==> out[i] != "" && out[i] != "." && Free(out[i], '/'))
    && (rooted ==> forall i :: 0 <= i < |out| ==> out[i] != Dots)
    && (forall i, j :: 0 <= i < j < |out| && out[j] == Dots ==> out[i] == Dots)
  }

  lemma {:induction false} StepsKept(segs: seq<string>, out: seq<string>, rooted: bool)
    requires Kept(out, rooted) && forall i :: 0 <= i < |segs| ==> Free(segs[i], '/')
    ensures Kept(Steps(segs, out, rooted), rooted)
    decreases |segs|
  {
    if segs != [] {
      StepsKept(segs[1..], Step(out, segs[0], rooted), rooted);
    }
  }

  lemma KeptNormal(out: seq<string>, rooted: bool)
    requires Kept(out, rooted) && (rooted || out == [] || out[0] != Dots)
    ensures Normal(out)
  {
  }

  /** A key is normalised to an absolute path of normal segments; only the key "." and its like end as "/.". */
  lemma KeyForm(key: string)
    requires Path([key]).Ok?
    ensures Path([key]).path == "/." || exists segs :: Normal(segs) && Path([key]).path == Absolute(segs)
  {
    var p := JoinPath([key]);
    if key == "" {
      assert p == JoinPath([]) == "" by { assert [key][1..] == []; }
      assert Path([key]).path == Absolute([]);
    } else {
      var out := Steps(Split(key, '/'), [], Rooted(key));
      StepsKept(Split(key, '/'), [], Rooted(key));
      assert p == Clean(key);
      if Rooted(key) {
        KeptNormal(out, true);
        assert Path([key]).path == Absolute(out);
      } else if out != [] {
        JoinHead(out);
        KeptNormal(out, false);
        JoinStarts(out);
        assert p[..1][0] == p[0];
        assert Path([key]).path == Absolute(out);
      } else {
        assert p == "." && p[..1] == "." && "/" + "." == "/.";
      }
    }
  }

  lemma JoinHead(segs: seq<string>)
    requires segs != []
    ensures HasPrefix(Join(segs, '/'), segs[0])
  {
  }

  lemma PathAbsolute(segs: seq<string>)
    requires Normal(segs)
    ensures Path([Absolute(segs)]) == Ok(Absolute(segs))
  {
    CleanAbsolute(segs);
  }

  lemma PathRelative(segs: seq<string>)
    requires Normal(segs) && segs != []
    ensures Path([Join(segs, '/')]) == if HasPrefix(segs[0], Dots) then Err else Ok(Absolute(segs))
  {
    CleanRelative(segs);
    JoinStarts(segs);
    PathOfOne(Join(segs, '/'));
    SlashBefore(Join(segs, '/'));
  }

  // ---- below a root ----

  lemma {:induction false} JoinConcat(a: seq<string>, b: seq<string>)
    requires a != [] && b != []
    ensures Join(a + b, '/') == Join(a, '/') + "/" + Join(b, '/')
    decreases |a|
  {
    assert (a + b)[1..] == a[1..] + b;
    if |a| > 1 { JoinConcat(a[1..], b); }
  }

  lemma AbsoluteConcat(root: seq<string>, segs: seq<string>)
    requires root != [] && segs != []
    ensures Absolute(root + segs) == Absolute(root) + "/" + Join(segs, '/')
  {
    JoinConcat(root, segs);
  }

  lemma PathBelow(root: seq<string>, segs: seq<string>)
    requires Normal(root) && root != [] && Normal(segs) && segs != []
    ensures Path([Absolute(root), Join(segs, '/')]) == Ok(Absolute(root + segs))
    ensures Absolute(root + segs) == Absolute(root) + "/" + Join(segs, '/')
  {
    AbsoluteConcat(root, segs);
    PathOfTwo(Absolute(root), Join(segs, '/'));
    CleanAbsolute(root + segs);
  }

  /** Joining two elements of which the first is an absolute path. */
  lemma PathOfTwo(a: string, b: string)
    requires Rooted(a)
    ensures Path([a, b]) == Ok(Clean(a + "/" + b))
  {
    assert [a, b][1..] == [b];
    assert Join([a, b], '/') == a + "/" + b;
  }

  /** The remote path of a key with segments under a root with segments. */
  lemma RemoteOf(root: seq<string>, key: string, segs: seq<string>)
    requires Normal(root) && Normal(segs) && Path([key]) == Ok(Absolute(segs))
    ensures RemotePath(Absolute(root), key) == Ok(Absolute(root + segs))
  {
    if segs == [] {
      assert root + segs == root;
    } else {
      JoinStarts(segs);
      assert TrimPrefix(Absolute(segs), "/") == Join(segs, '/');
      if root == [] {
        assert root + segs == segs;
      } else {
        JoinStarts(root);
        PathBelow(root, segs);
      }
    }
  }

  lemma KeyOf(root: seq<string>, segs: seq<string>)
    requires Normal(root) && Normal(segs)
    ensures LogicalKey(Absolute(root), Absolute(root + segs))
            == if root != [] && segs != [] && HasPrefix(segs[0], Dots) then Err else Ok(Absolute(segs))
  {
    PathAbsolute(root + segs);
    if root == [] {
      assert root + segs == segs;
    } else if segs == [] {
      JoinStarts(root);
      assert root + segs == root;
    } else {
      JoinStarts(root);
      PathBelow(root, segs);
      var remote, prefix := Absolute(root + segs), Absolute(root) + "/";
      assert remote == prefix + Join(segs, '/');
      assert TrimPrefix(remote, prefix) == Join(segs, '/');
      PathRelative(segs);
    }
  }

  /** What a configured root is normalised to, and the condition under which a key survives the way there and back. */
  predicate Survives(root: string, p: string) {
    root != "/." && p != "/." && (root == "/" || p == "/" || !HasPrefix(TrimPrefix(p, "/"), Dots))
  }

  ghost predicate RoundTrips(root: string, key: string) {
    RemotePath(root, key).Ok? && LogicalKey(root, RemotePath(root, key).path) == Path([key])
  }

  lemma DotRoot(key: string)
    requires Path([key]).Ok?
    ensures !RoundTrips("/.", key)
  {
    CleanDot();
    KeyForm(key);
    var p := Path([key]).path;
    if p == "/." {
      assert TrimPrefix(p, "/") == ".";
      assert Join(["/.", "."], '/') == "/./." by { assert ["/.", "."][1..] == ["."]; }
    } else if p != "/" {
      var segs :| Normal(segs) && p == Absolute(segs);
      assert segs != [];
      assert TrimPrefix(p, "/") == Join(segs, '/');
      DotRootBelow(segs);
      NotBelowDot(segs);
    }
  }

  /** How the paths made of dots are cleaned. */
  lemma CleanDot()
    ensures Clean("/.") == "/" && Clean("/./.") == "/"
  {
    CleanRooted(".");
    CleanRooted("./.");
    SplitFree(".", '/');
    SplitAt(".", ".", '/');
    assert "." + ['/'] + "." == "./." && "/" + "." == "/." && "/" + "./." == "/./.";
    assert ["."][1..] == [] && [".", "."][1..] == ["."];
  }

  lemma DotRootBelow(segs: seq<string>)
    requires Normal(segs) && segs != []
    ensures Path(["/.", Join(segs, '/')]) == Ok(Absolute(segs))
  {
    var rest := Join(segs, '/');
    PathOfTwo("/.", rest);
    assert "/." + "/" + rest == "/" + ("." + "/" + rest);
    CleanRooted("." + "/" + rest);
    SplitAt(".", rest, '/');
    SplitJoin(segs, '/');
    assert (["."] + segs)[1..] == segs;
    NormalSteps(segs, [], true);
    assert [] + segs == segs;
  }

  lemma NotBelowDot(segs: seq<string>)
    requires Normal(segs) && segs != []
    ensures LogicalKey("/.", Absolute(segs)) == Err
  {
    PathAbsolute(segs);
    RootForm(segs);
    NotDotSegment(segs);
  }

  lemma PrefixChars(s: string, prefix: string)
    ensures HasPrefix(s, prefix) ==> forall i :: 0 <= i < |prefix| ==> s[i] == prefix[i]
  {
    if HasPrefix(s, prefix) {
      forall i | 0 <= i < |prefix| ensures s[i] == prefix[i] { assert s[..|prefix|][i] == s[i]; }
    }
  }

  lemma NotDotSegment(segs: seq<string>)
    requires Normal(segs) && segs != []
    ensures !HasPrefix(Absolute(segs), "/./")
  {
    JoinStarts(segs);
    var a := Absolute(segs);
    assert a[1] == segs[0][0];
    if |segs[0]| > 1 {
      assert Free(segs[0], '/');
      assert |segs| > 1 ==> Join(segs, '/') == segs[0] + (['/'] + Join(segs[1..], '/'));
      assert a[2] == segs[0][1];
    }
    PrefixChars(a, "/./");
  }

  lemma DotKey(root: string, key: string)
    requires Path([key]) == Ok("/.") && (root == "/" || exists segs :: Normal(segs) && segs != [] && root == Absolute(segs))
    ensures !RoundTrips(root, key)
  {
    CleanDot();
    assert TrimPrefix("/.", "/") == ".";
    if root != "/" {
      var segs :| Normal(segs) && segs != [] && root == Absolute(segs);
      JoinStarts(segs);
      BelowDot(segs);
      PathAbsolute(segs);
    }
  }

  lemma BelowDot(root: seq<string>)
    requires Normal(root) && root != []
    ensures Path([Absolute(root), "."]) == Ok(Absolute(root))
  {
    PathOfTwo(Absolute(root), ".");
    assert Absolute(root) + "/" + "." == "/" + (Join(root, '/') + "/" + ".");
    CleanRooted(Join(root, '/') + "/" + ".");
    SplitJoinMore(root);
    NormalStepsThen(root);
  }

  lemma {:induction false} SplitJoinMore(root: seq<string>)
    requires Normal(root) && root != []
    ensures Split(Join(root, '/') + "/" + ".", '/') == root + ["."]
  {
    JoinConcat(root, ["."]);
    SplitJoin(root + ["."], '/');
  }

  lemma NormalStepsThen(root: seq<string>)
    requires Normal(root)
    ensures Steps(root + ["."], [], true) == root
  {
    StepsConcat(root, ["."], []);
    NormalSteps(root, [], true);
    assert ["."][1..] == [];
    assert Steps(["."], root, true) == root;
  }

  lemma {:induction false} StepsConcat(a: seq<string>, b: seq<string>, out: seq<string>)
    ensures Steps(a + b, out, true) == Steps(b, Steps(a, out, true), true)
    decreases |a|
  {
    if a == [] {
      assert a + b == b;
    } else {
      assert (a + b)[1..] == a[1..] + b;
      StepsConcat(a[1..], b, Step(out, a[0], true));
    }
  }

  /** A key comes back as its normal form if and only if neither the root nor the key normalises to "/." and, under a
      proper root, the key does not start with two dots. */
  lemma PathRoundTrip(configured: string, key: string)
    requires Path([configured]).Ok? && Path([key]).Ok?
    ensures RoundTrips(Path([configured]).path, key) <==> Survives(Path([configured]).path, Path([key]).path)
  {
    var root, p := Path([configured]).path, Path([key]).path;
    KeyForm(configured);
    KeyForm(key);
    if root == "/." {
      DotRoot(key);
    } else {
      var rs :| Normal(rs) && root == Absolute(rs);
      RootForm(rs);
      if p == "/." {
        DotKey(root, key);
      } else {
        var segs :| Normal(segs) && p == Absolute(segs);
        RootForm(segs);
        RemoteOf(rs, key, segs);
        KeyOf(rs, segs);
        if segs != [] { JoinStarts(segs); }
        assert TrimPrefix(p, "/") == Join(segs, '/');
      }
    }
  }

  lemma RootForm(segs: seq<string>)
    requires Normal(segs)
    ensures Absolute(segs) == "/" <==> segs == []
    ensures Absolute(segs) != "/."
  {
    if segs != [] {
      JoinStarts(segs);
      SplitJoin(segs, '/');
      SplitFree(".", '/');
      assert segs[0] != ".";
      assert Join(segs, '/') != ".";
      assert Absolute(segs)[1..] == Join(segs, '/') && "/."[1..] == ".";
    }
  }

  /** Different normal forms have different remote paths, all of them at the root or below it. */
  lemma RemoteInjective(configured: string, a: string, b: string)
    requires Path([configured]).Ok? && Path([configured]).path != "/."
    requires Path([a]).Ok? && Path([a]).path != "/." && Path([b]).Ok? && Path([b]).path != "/."
    ensures var root := Path([configured]).path;
            && RemotePath(root, a).Ok?
            && (RemotePath(root, a) == RemotePath(root, b) ==> Path([a]) == Path([b]))
            && (RemotePath(root, a).path == root || root == "/" || HasPrefix(RemotePath(root, a).path, root + "/"))
  {
    KeyForm(configured);
    KeyForm(a);
    KeyForm(b);
    var rs :| Normal(rs) && Path([configured]).path == Absolute(rs);
    var x :| Normal(x) && Path([a]).path == Absolute(x);
    var y :| Normal(y) && Path([b]).path == Absolute(y);
    RemoteOf(rs, a, x);
    RemoteOf(rs, b, y);
    if Absolute(rs + x) == Absolute(rs + y) {
      AbsoluteInjective(rs + x, rs + y);
      assert x == (rs + x)[|rs|..] == (rs + y)[|rs|..] == y;
    }
    if rs != [] && x != [] {
      PathBelow(rs, x);
    } else if rs != [] {
      assert rs + x == rs;
    }
  }

  lemma AbsoluteInjective(x: seq<string>, y: seq<string>)
    requires Normal(x) && Normal(y) && Absolute(x) == Absolute(y)
    ensures x == y
  {
    assert Join(x, '/') == Absolute(x)[1..] == Absolute(y)[1..] == Join(y, '/');
    RootForm(x);
    RootForm(y);
    if x != [] && y != [] {
      SplitJoin(x, '/');
      SplitJoin(y, '/');
    }
  }

  lemma SplitKeys(x: seq<string>, y: seq<string>)
    requires Normal(x) && Normal(y) && x != [] && y != []
    ensures Join(x, '/') == Join(y, '/') ==> x == y
  {
    SplitJoin(x, '/');
    SplitJoin(y, '/');
  }

  // ---- what the segments of a path do ----

  predicate AllFree(segs: seq<string>) {
    forall i :: 0 <= i < |segs| ==> Free(segs[i], '/')
  }

  /** An absolute path of any segments. */
  lemma CleanAny(segs: seq<string>)
    requires AllFree(segs)
    ensures Clean(Absolute(segs)) == Absolute(Steps(segs, [], true))
  {
    CleanRooted(Join(segs, '/'));
    if segs == [] {
      assert Split("", '/') == [""] && [""][1..] == [];
    } else {
      SplitJoin(segs, '/');
    }
  }

  lemma StepsAmid(a: seq<string>, x: seq<string>, b: seq<string>)
    ensures Steps(a + x + b, [], true) == Steps(b, Steps(x, Steps(a, [], true), true), true)
  {
    StepsConcat(a + x, b, []);
    StepsConcat(a, x, []);
  }

  lemma OneStep(x: string, out: seq<string>)
    ensures Steps([x], out, true) == Step(out, x, true)
  {
    assert [x][1..] == [];
  }

  /** Segments that leave any kept segments as they are can be left out. */
  lemma Without(a: seq<string>, x: seq<string>, b: seq<string>)
    requires AllFree(a) && AllFree(x) && AllFree(b) && Steps(x, Steps(a, [], true), true) == Steps(a, [], true)
    ensures Clean(Absolute(a + x + b)) == Clean(Absolute(a + b))
  {
    StepsAmid(a, x, b);
    StepsConcat(a, b, []);
    CleanAny(a + x + b);
    CleanAny(a + b);
  }

  /** The laws of an absolute path: empty segments and "." do nothing, ".." takes the name before it away and does nothing in
      front. */
  lemma CleanLaws(a: seq<string>, x: string, b: seq<string>)
    requires AllFree(a) && AllFree(b) && Free(x, '/')
    ensures x == "" || x == "." ==> Clean(Absolute(a + [x] + b)) == Clean(Absolute(a + b))
    ensures Normal([x]) ==> Clean(Absolute(a + [x, Dots] + b)) == Clean(Absolute(a + b))
    ensures Clean(Absolute([Dots] + b)) == Clean(Absolute(b))
  {
    var out := Steps(a, [], true);
    if x == "" || x == "." {
      OneStep(x, out);
      Without(a, [x], b);
    } else if x != Dots {
      NameThenDots(x, out);
      Without(a, [x, Dots], b);
    }
    DotsInFront(b);
  }

  lemma DotsInFront(b: seq<string>)
    requires AllFree(b)
    ensures Clean(Absolute([Dots] + b)) == Clean(Absolute(b))
  {
    OneStep(Dots, []);
    Without([], [Dots], b);
    assert [] + [Dots] + b == [Dots] + b && [] + b == b;
  }

  lemma NameThenDots(x: string, out: seq<string>)
    requires Normal([x])
    ensures Steps([x, Dots], out, true) == out
  {
    assert [x][0] == x && [x, Dots] == [x] + [Dots];
    StepsConcat([x], [Dots], out);
    OneStep(x, out);
    OneStep(Dots, out + [x]);
  }

  /** Counting names and "..", the segments lead above the place at which they start, that many names deep. */
  predicate Climbs(segs: seq<string>, depth: nat)
    decreases |segs|
  {
    segs != []
    && if segs[0] == "" || segs[0] == "." then Climbs(segs[1..], depth)
       else if segs[0] != Dots then Climbs(segs[1..], depth + 1)
       else depth == 0 || Climbs(segs[1..], depth - 1)
  }

  /** A relative path that does not climb keeps the segments of the absolute one; one that climbs starts with "..". */
  lemma {:induction false} ClimbingSteps(segs: seq<string>, out: seq<string>)
    requires AllFree(segs) && Normal(out)
    ensures var r := Steps(segs, out, false);
      if Climbs(segs, |out|) then r != [] && r[0] == Dots else r == Steps(segs, out, true) && Normal(r)
    decreases |segs|
  {
    if segs != [] {
      var next := Step(out, segs[0], false);
      if segs[0] == Dots && out == [] {
        StayUp(segs[1..], next);
      } else {
        assert Normal(next);
        ClimbingSteps(segs[1..], next);
      }
    }
  }

  lemma {:induction false} StayUp(segs: seq<string>, out: seq<string>)
    requires out != [] && out[0] == Dots
    ensures var r := Steps(segs, out, false); r != [] && r[0] == Dots
    decreases |segs|
  {
    if segs != [] { StayUp(segs[1..], Step(out, segs[0], false)); }
  }

  lemma PathOfOne(key: string)
    requires key != ""
    ensures Path([key]) == var p := Clean(key); if HasPrefix(p, Dots) then Err else if HasPrefix(p, "/") then Ok(p) else Ok("/" + p)
  {
  }

  /** A relative key whose cleaned segments are out. */
  lemma PathOfKept(key: string, out: seq<string>)
    requires key != "" && !Rooted(key) && Normal(out) && out == Steps(Split(key, '/'), [], false)
    ensures Path([key]) == if out == [] then Ok("/.") else if HasPrefix(Absolute(out), "/..") then Err else Ok(Absolute(out))
  {
    PathOfOne(key);
    if out == [] {
      assert Clean(key) == "." && "."[..1] == "." && "/" + "." == "/.";
    } else {
      JoinStarts(out);
      SlashBefore(Join(out, '/'));
    }
  }

  lemma PathEmpty()
    ensures Path([""]) == Ok("/")
  {
    assert [""][1..] == [] && "/" + "" == "/";
  }

  lemma PathRooted(key: string)
    requires Rooted(key)
    ensures Path([key]) == Ok(Clean(key))
  {
    PathOfOne(key);
    assert Clean(key)[0] == '/' && Clean(key)[..1] == "/";
    PrefixChars(Clean(key), Dots);
  }

  lemma PathClimbing(key: string)
    requires key != "" && !Rooted(key) && Climbs(Split(key, '/'), 0)
    ensures Path([key]) == Err
  {
    PathOfOne(key);
    ClimbingSteps(Split(key, '/'), []);
    JoinHead(Steps(Split(key, '/'), [], false));
  }

  lemma PathLevel(key: string)
    requires key != "" && !Rooted(key) && !Climbs(Split(key, '/'), 0)
    ensures var p := Clean("/" + key);
      Path([key]) == if p == "/" then Ok("/.") else if HasPrefix(p, "/..") then Err else Ok(p)
  {
    var out := Steps(Split(key, '/'), [], false);
    ClimbingSteps(Split(key, '/'), []);
    PathOfKept(key, out);
    CleanRooted(key);
    RootForm(out);
  }

  /** The normal form of any key, from that of absolute paths: a relative key that climbs above its start is refused, and so is
      one whose first name starts with two dots; any other key means the same as the absolute one, but for "/." in place of
      nothing. */
  lemma PathExact(key: string)
    ensures Path([key]) ==
      if key == "" then Ok("/")
      else if Rooted(key) then Ok(Clean(key))
      else if Climbs(Split(key, '/'), 0) then Err
      else if Clean("/" + key) == "/" then Ok("/.")
      else if HasPrefix(Clean("/" + key), "/..") then Err
      else Ok(Clean("/" + key))
  {
    if key == "" {
      PathEmpty();
    } else if Rooted(key) {
      PathRooted(key);
    } else if Climbs(Split(key, '/'), 0) {
      PathClimbing(key);
    } else {
      PathLevel(key);
    }
  }

  lemma SlashBefore(s: string)
    requires s != "" && s[0] != '/'
    ensures HasPrefix("/" + s, "/..") <==> HasPrefix(s, Dots)
    ensures !HasPrefix(s, "/")
  {
    if |s| >= 2 { assert ("/" + s)[..3] == "/" + s[..2]; }
    assert s[..1][0] == s[0];
    if HasPrefix("/" + s, "/..") { assert s[..2] == ("/" + s)[..3][1..]; }
  }
}
