/** Directory and file names derived from comic ids. */
module ComicNames {
  import opened Arithmetic
  import opened Decimal
  import opened Text
  import StoragePaths

  // ---- cutting a string from the right ----

  function Concat(pieces: seq<string>): string {
    if pieces == [] then "" else Concat(pieces[..|pieces| - 1]) + pieces[|pieces| - 1]
  }

  /** Full pieces from the right; what remains on the left comes first. */
  function Pieces(raw: string, size: nat): seq<string>
    requires size > 0
    decreases |raw|
  {
    if raw == "" then []
    else if |raw| < size then [raw]
    else Pieces(raw[..|raw| - size], size) + [raw[|raw| - size..]]
  }

  /** The pieces make up the string, all but the first have exactly the wanted size and the first is not longer. */
  lemma {:induction false} PiecesMean(raw: string, size: nat)
    requires size > 0
    ensures var r := Pieces(raw, size);
            && Concat(r) == raw
            && (forall i :: 0 < i < |r| ==> |r[i]| == size)
            && (r != [] ==> 1 <= |r[0]| <= size)
    decreases |raw|
  {
    if raw == "" {
    } else if |raw| < size {
      assert Concat([raw]) == "" + raw by { assert [raw][..0] == []; }
    } else {
      var left, last := raw[..|raw| - size], raw[|raw| - size..];
      PiecesMean(left, size);
      assert Pieces(raw, size)[..|Pieces(left, size)|] == Pieces(left, size);
      assert raw == left + last;
    }
  }

  /** The slots the cutting loop allocates. */
  function Slots(n: nat, size: nat): nat
    requires size > 0
  {
    if size == 1 || n % size == 0 then n / size else (n + size) / size
  }

  lemma SlotsMinus(n: nat, size: nat)
    requires 0 < size <= n
    ensures Slots(n, size) == Slots(n - size, size) + 1
  {
    DivMinus(n, size);
    DivMinus(n + size, size);
  }

  lemma SlotsSmall(n: nat, size: nat)
    requires n < size
    ensures Slots(n, size) == if n == 0 then 0 else 1
  {
    DivUnique(n, size, 0, n);
    DivUnique(n + size, size, 1, n);
  }

  /** They are as many as there are pieces. */
  lemma {:induction false} SlotsSuffice(raw: string, size: nat)
    requires size > 0
    ensures Slots(|raw|, size) == |Pieces(raw, size)|
    decreases |raw|
  {
    if |raw| < size {
      SlotsSmall(|raw|, size);
    } else {
      SlotsSuffice(raw[..|raw| - size], size);
      SlotsMinus(|raw|, size);
    }
  }

  /** Fills an array of the right length from its end. */
  method SplitStrRightBySize(text: string, size: int) returns (result: array<string>)
    ensures result[..] == if size <= 0 then [text] else Pieces(text, size)
  {
    if size <= 0 {
      result := new string[1][text];
      return;
    }
    var raw := text;
    result := new string[Slots(|raw|, size)](_ => "");
    SlotsSuffice(raw, size);
    var i := result.Length;
    while i > 0
      invariant 0 <= i <= result.Length
      invariant i == |Pieces(raw, size)|
      invariant Pieces(raw, size) + result[i..] == Pieces(text, size)
    {
      i := i - 1;
      if |raw| < size {
        result[i] := raw;
        assert result[0..] == [raw] + result[1..];
        break;
      }
      result[i] := raw[|raw| - size..];
      assert result[i..] == [raw[|raw| - size..]] + result[i + 1..];
      raw := raw[..|raw| - size];
    }
    assert result[..] == result[0..];
  }

  // ---- storage prefixes ----

  function Pad(s: string, width: nat): string
    decreases width - |s|
  {
    if |s| >= width then s else Pad("0" + s, width)
  }

  lemma {:induction false} PadDigits(s: string, width: nat)
    requires AllDigits(s)
    ensures AllDigits(Pad(s, width)) && Read(Pad(s, width)) == Read(s) && |Pad(s, width)| >= |s|
    decreases width - |s|
  {
    if |s| < width {
      LeadingZero(s);
      PadDigits("0" + s, width);
    }
  }

  lemma {:induction false} LeadingZero(s: string)
    requires AllDigits(s)
    ensures AllDigits("0" + s) && Read("0" + s) == Read(s)
  {
    var z := "0" + s;
    if s == "" {
      assert z[..0] == "";
    } else {
      LeadingZero(s[..|s| - 1]);
      assert z[..|z| - 1] == "0" + s[..|s| - 1];
    }
  }

  /** The segments of the directory for a comic: the hundreds of its id, padded to four digits, in pairs. */
  function PrefixSegments(cid: nat): seq<string> {
    Pieces(Pad(Show(cid / 100), 4), 2)
  }

  function StoragePrefix(cid: nat): string {
    Join(PrefixSegments(cid), '/')
  }

  lemma {:induction false} DigitPieces(raw: string, size: nat)
    requires size > 0 && AllDigits(raw)
    ensures forall i :: 0 <= i < |Pieces(raw, size)| ==> AllDigits(Pieces(raw, size)[i]) && Pieces(raw, size)[i] != ""
    decreases |raw|
  {
    if |raw| >= size { DigitPieces(raw[..|raw| - size], size); }
  }

  lemma PrefixSegmentsAreDigits(cid: nat)
    ensures var segs := PrefixSegments(cid);
            segs != [] && forall i :: 0 <= i < |segs| ==> AllDigits(segs[i]) && segs[i] != "" && Free(segs[i], '/')
  {
    PadDigits(Show(cid / 100), 4);
    DigitPieces(Pad(Show(cid / 100), 4), 2);
  }

  lemma {:induction false} PadLength(s: string, width: nat)
    ensures |Pad(s, width)| == if |s| < width then width else |s|
    decreases width - |s|
  {
    if |s| < width { PadLength("0" + s, width); }
  }

  /** The directory of a comic, split at its slashes: the digits read as the hundreds of the id, there are at least four, no
      leading zero stands before the last four, and they come in pairs, of which only the first may be a single digit. */
  lemma PrefixReads(cid: nat)
    ensures var segs := Split(StoragePrefix(cid), '/');
      var digits := Concat(segs);
      && AllDigits(digits) && Read(digits) == cid / 100
      && |digits| >= 4 && (|digits| > 4 ==> digits[0] != '0')
      && (forall i :: 0 < i < |segs| ==> |segs[i]| == 2) && 1 <= |segs[0]| <= 2
  {
    var shown := Show(cid / 100);
    PrefixSegmentsAreDigits(cid);
    SplitJoin(PrefixSegments(cid), '/');
    PiecesMean(Pad(shown, 4), 2);
    PadDigits(shown, 4);
    PadLength(shown, 4);
    ReadShow(cid / 100);
    if |shown| > 4 { ShowLeads(cid / 100); }
  }

  lemma {:induction false} ShowLeads(n: nat)
    requires n > 0
    ensures Show(n)[0] != '0'
  {
    if n >= 10 { ShowLeads(n / 10); }
  }

  /** Two comics share a directory exactly if their ids have the same hundreds. */
  lemma SamePrefix(a: nat, b: nat)
    ensures StoragePrefix(a) == StoragePrefix(b) <==> a / 100 == b / 100
  {
    if StoragePrefix(a) == StoragePrefix(b) {
      PrefixSegmentsAreDigits(a);
      PrefixSegmentsAreDigits(b);
      SplitJoin(PrefixSegments(a), '/');
      SplitJoin(PrefixSegments(b), '/');
      PiecesMean(Pad(Show(a / 100), 4), 2);
      PiecesMean(Pad(Show(b / 100), 4), 2);
      PadDigits(Show(a / 100), 4);
      PadDigits(Show(b / 100), 4);
      ReadShow(a / 100);
      ReadShow(b / 100);
    }
  }

  // ---- archive keys ----

  function ArchiveName(cid: nat): string { Show(cid) + ".cocoma" }

  /** Where replicas of a comic's archive are kept. */
  function ArchiveKey(cid: nat): string { StoragePrefix(cid) + "/" + ArchiveName(cid) }

  lemma NameIsNormal(cid: nat)
    ensures var name := ArchiveName(cid);
            name != "" && name != "." && name != StoragePaths.Dots && Free(name, '/') && IsDigit(name[0])
  {
    assert ArchiveName(cid)[0] == Show(cid)[0];
  }

  lemma KeySegments(cid: nat)
    ensures var segs := PrefixSegments(cid) + [ArchiveName(cid)];
            StoragePaths.Normal(segs) && Join(segs, '/') == ArchiveKey(cid) && !StoragePaths.HasPrefix(segs[0], "..")
  {
    PrefixSegmentsAreDigits(cid);
    StoragePaths.JoinConcat(PrefixSegments(cid), [ArchiveName(cid)]);
    NameIsNormal(cid);
    forall i | 0 <= i < |PrefixSegments(cid)| ensures IsDigit(PrefixSegments(cid)[i][0]) {
      assert AllDigits(PrefixSegments(cid)[i]);
    }
  }

  /** Archive keys are normal: a backend below any root but "/." gives them back. */
  lemma ArchiveKeyRoundTrips(configured: string, cid: nat)
    requires StoragePaths.Path([configured]).Ok? && StoragePaths.Path([configured]).path != "/."
    ensures StoragePaths.Path([ArchiveKey(cid)]) == StoragePaths.Ok("/" + ArchiveKey(cid))
    ensures StoragePaths.RoundTrips(StoragePaths.Path([configured]).path, ArchiveKey(cid))
  {
    var segs := PrefixSegments(cid) + [ArchiveName(cid)];
    KeySegments(cid);
    StoragePaths.PathRelative(segs);
    StoragePaths.RootForm(segs);
    StoragePaths.JoinStarts(segs);
    assert StoragePaths.TrimPrefix("/" + ArchiveKey(cid), "/") == ArchiveKey(cid);
    StoragePaths.PathRoundTrip(configured, ArchiveKey(cid));
  }

  /** Different comics have different archive keys, and different remote paths below every root. */
  lemma ArchiveKeysDiffer(configured: string, a: nat, b: nat)
    requires StoragePaths.Path([configured]).Ok? && StoragePaths.Path([configured]).path != "/." && a != b
    ensures ArchiveKey(a) != ArchiveKey(b)
    ensures var root := StoragePaths.Path([configured]).path;
            StoragePaths.RemotePath(root, ArchiveKey(a)) != StoragePaths.RemotePath(root, ArchiveKey(b))
  {
    ArchiveKeyRoundTrips(configured, a);
    ArchiveKeyRoundTrips(configured, b);
    KeySegments(a);
    KeySegments(b);
    var x, y := PrefixSegments(a) + [ArchiveName(a)], PrefixSegments(b) + [ArchiveName(b)];
    StoragePaths.SplitKeys(x, y);
    NamesDiffer(a, b);
    assert x[|x| - 1] != y[|y| - 1];
    assert ArchiveKey(a) != ArchiveKey(b);
    assert ("/" + ArchiveKey(a))[1..] == ArchiveKey(a) && ("/" + ArchiveKey(b))[1..] == ArchiveKey(b);
    StoragePaths.RootForm(x);
    StoragePaths.RootForm(y);
    StoragePaths.RemoteInjective(configured, ArchiveKey(a), ArchiveKey(b));
  }

  lemma NamesDiffer(a: nat, b: nat)
    requires a != b
    ensures ArchiveName(a) != ArchiveName(b)
  {
    if ArchiveName(a) == ArchiveName(b) {
      DigitsThen(Show(a), Show(b), ".cocoma", ".cocoma");
      ReadShow(a);
      ReadShow(b);
      assert false;
    }
  }
}
