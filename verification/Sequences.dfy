/** Order and membership in sequences. */
module Sequences {

  predicate Ascending(s: seq<int>) {
    forall i, j :: 0 <= i < j < |s| ==> s[i] < s[j]
  }

  predicate Sorted(s: seq<int>) {
    forall i, j :: 0 <= i < j < |s| ==> s[i] <= s[j]
  }

  predicate Has(s: seq<int>, c: int) {
    exists i :: 0 <= i < |s| && s[i] == c
  }

  lemma HasConcat(a: seq<int>, b: seq<int>)
    ensures forall x :: Has(a + b, x) <==> Has(a, x) || Has(b, x)
  {
    forall x ensures Has(a + b, x) <==> Has(a, x) || Has(b, x) {
      if Has(a, x) {
        var i :| 0 <= i < |a| && a[i] == x;
        assert (a + b)[i] == x;
      }
      if Has(b, x) {
        var i :| 0 <= i < |b| && b[i] == x;
        assert (a + b)[|a| + i] == x;
      }
    }
  }

  lemma HasOne(c: int)
    ensures forall x :: Has([c], x) <==> x == c
  {
    assert [c][0] == c;
  }

  lemma HasHead(h: int, rest: seq<int>)
    ensures forall x :: Has([h] + rest, x) <==> x == h || Has(rest, x)
  {
    HasOne(h);
    HasConcat([h], rest);
  }

  /** Membership in a list with a given head. */
  lemma HasCons(s: seq<int>)
    requires s != []
    ensures forall x :: Has(s, x) <==> x == s[0] || Has(s[1..], x)
  {
    assert s == [s[0]] + s[1..];
    HasOne(s[0]);
    HasConcat([s[0]], s[1..]);
  }

  lemma HasLast(s: seq<int>)
    requires s != []
    ensures forall x :: Has(s, x) <==> Has(s[..|s| - 1], x) || x == s[|s| - 1]
  {
    forall x ensures Has(s, x) <==> Has(s[..|s| - 1], x) || x == s[|s| - 1] {
      if Has(s, x) && x != s[|s| - 1] {
        var i :| 0 <= i < |s| && s[i] == x;
        assert s[..|s| - 1][i] == x;
      }
      if Has(s[..|s| - 1], x) {
        var i :| 0 <= i < |s| - 1 && s[..|s| - 1][i] == x;
        assert s[i] == x;
      }
    }
  }

  lemma HeadWithin(s: seq<int>, t: seq<int>)
    requires Ascending(s) && Ascending(t) && s != [] && forall x :: Has(s, x) ==> Has(t, x)
    ensures t != [] && t[0] <= s[0]
    ensures t[0] != s[0] ==> forall x :: Has(s, x) ==> Has(t[1..], x)
    ensures t[0] == s[0] ==> forall x :: Has(s[1..], x) ==> Has(t[1..], x)
  {
    assert Has(s, s[0]);
    var m :| 0 <= m < |t| && t[m] == s[0];
    assert t[0] <= s[0];
    forall i | 0 <= i < |s| && (i > 0 || t[0] != s[0]) ensures Has(t[1..], s[i]) {
      assert Has(s, s[i]);
      var n :| 0 <= n < |t| && t[n] == s[i];
      assert t[1..][n - 1] == s[i];
    }
  }

  lemma {:induction false} SubsetShorter(s: seq<int>, t: seq<int>)
    requires Ascending(s) && Ascending(t) && forall x :: Has(s, x) ==> Has(t, x)
    ensures |s| <= |t|
    decreases |t|
  {
    if s != [] {
      HeadWithin(s, t);
      SubsetShorter(if t[0] == s[0] then s[1..] else s, t[1..]);
    }
  }

  /** Ascending sequences with the same members are equal. */
  lemma {:induction false} SameMembers(s: seq<int>, t: seq<int>)
    requires Ascending(s) && Ascending(t) && forall x :: Has(s, x) <==> Has(t, x)
    ensures s == t
  {
    if s != [] {
      HeadWithin(s, t);
      HeadWithin(t, s);
      SameMembers(s[1..], t[1..]);
      assert s == [s[0]] + s[1..] && t == [t[0]] + t[1..];
    } else if t != [] {
      HeadWithin(t, s);
    }
  }

  /** How many elements stand before the last one that is at most x, that one included. */
  function CountAtMost(s: seq<int>, x: int): (c: nat)
    ensures c <= |s|
  {
    if s == [] || s[|s| - 1] <= x then |s| else CountAtMost(s[..|s| - 1], x)
  }

  /** In a sorted sequence these are the elements that are at most x. */
  lemma {:induction false} CountSplits(s: seq<int>, x: int)
    requires Sorted(s)
    ensures forall i :: 0 <= i < |s| ==> (s[i] <= x <==> i < CountAtMost(s, x))
  {
    if s != [] && s[|s| - 1] > x { CountSplits(s[..|s| - 1], x); }
  }

  lemma CountIs(s: seq<int>, x: int, c: nat)
    requires Sorted(s) && c <= |s| && (c > 0 ==> s[c - 1] <= x) && (c < |s| ==> x < s[c])
    ensures CountAtMost(s, x) == c
  {
    CountSplits(s, x);
  }

  /** How often x occurs. */
  function Times<T(==)>(s: seq<T>, x: T): nat {
    multiset(s)[x]
  }

  lemma TimesConcat(a: seq<int>, b: seq<int>, x: int)
    ensures Times(a + b, x) == Times(a, x) + Times(b, x)
  {
  }

  lemma TimesHas(s: seq<int>, x: int)
    ensures Times(s, x) > 0 <==> Has(s, x)
  {
    if x in s {
      var i :| 0 <= i < |s| && s[i] == x;
    }
  }

  /** In a sequence sorted with single occurrences the order is strict. */
  lemma OnceAscends(s: seq<int>)
    requires Sorted(s) && forall x :: Times(s, x) <= 1
    ensures Ascending(s)
  {
    forall i, j | 0 <= i < j < |s| ensures s[i] != s[j] {
      assert s == s[..j] + s[j..];
      TimesConcat(s[..j], s[j..], s[i]);
      assert s[..j][i] == s[i] && s[j..][0] == s[j];
      TimesHas(s[..j], s[i]);
      TimesHas(s[j..], s[i]);
    }
  }

  lemma {:induction false} AscendingOnce(s: seq<int>, x: int)
    requires Ascending(s)
    ensures Times(s, x) <= 1
  {
    if s != [] {
      AscendingOnce(s[1..], x);
      assert s == [s[0]] + s[1..];
      TimesConcat([s[0]], s[1..], x);
      if x == s[0] { TimesHas(s[1..], x); }
    }
  }

  lemma NonEmptyHasMember<T>(s: seq<T>)
    ensures s == [] || exists x :: x in s
  {
    if s != [] { assert s[0] in s; }
  }
}
