/** Splitting text at a separator and joining it again. */
module Text {

  predicate Free(s: string, c: char) {
    forall i :: 0 <= i < |s| ==> s[i] != c
  }

  function Split(s: string, c: char): (r: seq<string>)
    ensures |r| >= 1
    ensures forall i :: 0 <= i < |r| ==> Free(r[i], c)
  {
    if s == "" then [""]
    else
      var r := Split(s[1..], c);
      if s[0] == c then [""] + r else [[s[0]] + r[0]] + r[1..]
  }

  function Join(segs: seq<string>, c: char): string {
    if segs == [] then ""
    else if |segs| == 1 then segs[0]
    else segs[0] + [c] + Join(segs[1..], c)
  }

  lemma {:induction false} SplitFree(s: string, c: char)
    requires Free(s, c)
    ensures Split(s, c) == [s]
  {
    if s != "" {
      SplitFree(s[1..], c);
      assert [s[0]] + s[1..] == s;
    }
  }

  lemma {:induction false} SplitAt(s: string, t: string, c: char)
    requires Free(s, c)
    ensures Split(s + [c] + t, c) == [s] + Split(t, c)
  {
    var whole := s + [c] + t;
    if s == "" {
      assert whole[1..] == t;
    } else {
      SplitAt(s[1..], t, c);
      assert whole[1..] == s[1..] + [c] + t;
      assert [s[0]] + s[1..] == s;
      assert ([s[1..]] + Split(t, c))[1..] == Split(t, c);
    }
  }

  /** Splitting undoes joining of pieces without the separator. */
  lemma {:induction false} SplitJoin(segs: seq<string>, c: char)
    requires segs != [] && forall i :: 0 <= i < |segs| ==> Free(segs[i], c)
    ensures Split(Join(segs, c), c) == segs
    decreases |segs|
  {
    if |segs| == 1 {
      SplitFree(segs[0], c);
    } else {
      SplitAt(segs[0], Join(segs[1..], c), c);
      SplitJoin(segs[1..], c);
    }
  }

  /** Joining undoes splitting. */
  lemma {:induction false} JoinSplit(s: string, c: char)
    ensures Join(Split(s, c), c) == s
  {
    if s != "" {
      JoinSplit(s[1..], c);
      var r := Split(s[1..], c);
      if s[0] == c {
        assert ([""] + r)[1..] == r;
      } else {
        var h := [[s[0]] + r[0]] + r[1..];
        assert h[1..] == r[1..];
        if |r| > 1 {
          assert Join(r, c) == r[0] + [c] + Join(r[1..], c);
        }
      }
      assert [s[0]] + s[1..] == s;
    }
  }
}
