/** Scanning a collection page by page while other tasks change it. */
module KeysetScan {
  import opened Options
  import opened Sequences

  /** The ids of the rows that satisfy the rest of the filter at some moment, in the order of the query. Several rows may
      carry the same id; a row without one reads as 0. */
  type Pool = s: seq<int> | Sorted(s)

  datatype Filter = Filter(id: Option<int>, left: Option<int>, right: Option<int>, limit: int, skip: nat)

  const PageSize := 100

  /** A wanted id overrides the range. */
  predicate Selects(f: Filter, x: int) {
    if f.id.Some? then x == f.id.value
    else (f.left.Some? ==> f.left.value <= x) && (f.right.Some? ==> x <= f.right.value)
  }

  function Matches(s: seq<int>, f: Filter): seq<int> {
    if s == [] then []
    else if Selects(f, s[0]) then [s[0]] + Matches(s[1..], f)
    else Matches(s[1..], f)
  }

  lemma {:induction false} FoundInPool(s: seq<int>, f: Filter, x: int)
    ensures Has(Matches(s, f), x) <==> Has(s, x) && Selects(f, x)
  {
    if s != [] {
      FoundInPool(s[1..], f, x);
      HasCons(s);
      HasHead(s[0], Matches(s[1..], f));
    }
  }

  lemma {:induction false} MatchesSorted(s: Pool, f: Filter)
    ensures Sorted(Matches(s, f))
  {
    if s != [] {
      MatchesSorted(s[1..], f);
      var rest := Matches(s[1..], f);
      forall i | 0 <= i < |rest| ensures s[0] <= rest[i] {
        assert Has(rest, rest[i]);
        FoundInPool(s[1..], f, rest[i]);
        var j :| 0 <= j < |s[1..]| && s[1..][j] == rest[i];
      }
    }
  }

  /** Only the range, not the page, decides what matches. */
  lemma {:induction false} MatchesSame(s: seq<int>, f: Filter, g: Filter)
    requires f.id == g.id && (f.id.None? ==> f.left == g.left && f.right == g.right)
    ensures Matches(s, f) == Matches(s, g)
  {
    if s != [] { MatchesSame(s[1..], f, g); }
  }

  /** A match is found as often as there are rows for it. */
  lemma {:induction false} MatchesTimes(s: seq<int>, f: Filter, x: int)
    ensures Times(Matches(s, f), x) == if Selects(f, x) then Times(s, x) else 0
  {
    if s != [] {
      MatchesTimes(s[1..], f, x);
      assert s == [s[0]] + s[1..];
      TimesConcat([s[0]], s[1..], x);
      TimesConcat([s[0]], Matches(s[1..], f), x);
    }
  }

  lemma MatchesAscend(s: Pool, f: Filter)
    requires Ascending(s)
    ensures Ascending(Matches(s, f))
  {
    MatchesSorted(s, f);
    forall x ensures Times(Matches(s, f), x) <= 1 {
      MatchesTimes(s, f, x);
      AscendingOnce(s, x);
    }
    OnceAscends(Matches(s, f));
  }

  /** The first skip elements, or as many as there are. */
  function Head(m: seq<int>, skip: nat): seq<int> {
    if skip <= |m| then m[..skip] else m
  }

  /** n elements from skip on, or as many as there are. */
  function Window(m: seq<int>, skip: nat, n: nat): seq<int> {
    var low := if skip <= |m| then skip else |m|;
    m[low..if low + n <= |m| then low + n else |m|]
  }

  function Room(left: int, bound: int): nat {
    if left <= bound then bound - left + 1 else 0
  }

  function Slice(m: seq<int>, skip: nat, limit: int): seq<int> {
    var rest := if skip <= |m| then m[skip..] else [];
    if 0 < limit < |rest| then rest[..limit] else rest
  }

  /** A slice is a run of the elements from p on, and ends early only if it is full. */
  lemma SliceIs(m: seq<int>, p: nat, limit: int)
    ensures var page := Slice(m, p, limit);
            && (page == [] <==> p >= |m|)
            && (page != [] ==> p + |page| <= |m| && page == m[p..p + |page|] && page[|page| - 1] == m[p + |page| - 1])
            && (p + |page| < |m| ==> |page| == limit)
            && (limit > 0 ==> |page| <= limit)
  {
  }

  /** One query: the matches in ascending order, from skip on, at most limit of them if limit is positive. */
  function Find(s: seq<int>, f: Filter): seq<int> {
    Slice(Matches(s, f), f.skip, f.limit)
  }

  lemma InHead(m: seq<int>, skip: nat, i: nat)
    requires i < |m| && i < skip
    ensures Has(Head(m, skip), m[i])
  {
    assert Head(m, skip)[i] == m[i];
  }

  lemma SliceFirst(m: seq<int>, p: nat, limit: int, x: int)
    requires Sorted(m) && Has(m, x) && !Has(Head(m, p), x)
    ensures Slice(m, p, limit) != []
    ensures Has(Slice(m, p, limit), x) || Slice(m, p, limit)[|Slice(m, p, limit)| - 1] < x
  {
    var page := Slice(m, p, limit);
    SliceIs(m, p, limit);
    var i :| 0 <= i < |m| && m[i] == x;
    if i < p {
      InHead(m, p, i);
    } else if i < p + |page| {
      assert page[i - p] == x;
    } else {
      assert page[|page| - 1] == x ==> Has(page, x);
    }
  }

  /** A query leaves out a match only in front, by the skip, or behind a full page. */
  lemma PageIsFirst(s: Pool, f: Filter, x: int)
    requires Has(s, x) && Selects(f, x) && !Has(Head(Matches(s, f), f.skip), x)
    ensures Find(s, f) != []
    ensures Has(Find(s, f), x) || Find(s, f)[|Find(s, f)| - 1] < x
  {
    FoundInPool(s, f, x);
    MatchesSorted(s, f);
    SliceFirst(Matches(s, f), f.skip, f.limit, x);
  }

  lemma SliceMembers(m: seq<int>, p: nat, limit: int, x: int)
    requires Has(Slice(m, p, limit), x)
    ensures Has(m, x) && Times(Slice(m, p, limit), x) <= Times(m, x)
  {
    var page := Slice(m, p, limit);
    SliceIs(m, p, limit);
    assert m == m[..p] + m[p..] && m[p..] == page + m[p + |page|..];
    TimesConcat(m[..p], m[p..], x);
    TimesConcat(page, m[p + |page|..], x);
    TimesHas(page, x);
    TimesHas(m, x);
  }

  lemma PageMembers(s: seq<int>, f: Filter, x: int)
    requires Has(Find(s, f), x)
    ensures Has(s, x) && Selects(f, x) && Times(Find(s, f), x) <= Times(s, x)
  {
    SliceMembers(Matches(s, f), f.skip, f.limit, x);
    FoundInPool(s, f, x);
    MatchesTimes(s, f, x);
  }

  lemma PageSorted(s: Pool, f: Filter)
    ensures Sorted(Find(s, f))
  {
    var m, page := Matches(s, f), Find(s, f);
    MatchesSorted(s, f);
    SliceIs(m, f.skip, f.limit);
    forall i | 0 <= i < |page| ensures page[i] == m[f.skip + i] {}
  }

  // ---- the scan by keyset ----

  /** Some query so far found at least n rows with this id. */
  ghost predicate Found(pool: nat -> Pool, x: int, n: nat, finds: nat) {
    exists k: nat :: k < finds && Has(pool(k), x) && n <= Times(pool(k), x)
  }

  ghost predicate Stays(pool: nat -> Pool, x: int, finds: nat) {
    forall k: nat :: k < finds ==> Has(pool(k), x)
  }

  /** Among the ids that the initial skip passes over. */
  ghost predicate Early(pool: nat -> Pool, start: Filter, x: int) {
    Has(Head(Matches(pool(0), start), start.skip), x)
  }

  /** Everything a keyset scan owes after some pages: out is in order and stays below the next left bound, no id is out
      more often than one query found it, and each id below that bound that was there in every query so far is out. */
  ghost predicate Swept(pool: nat -> Pool, start: Filter, f: Filter, out: seq<int>, finds: nat) {
    && Sorted(out)
    && f.id == start.id && f.right == start.right && f.skip == (if finds == 0 then start.skip else 0)
    && (out == [] <==> finds == 0)
    && f.left == (if out == [] then start.left else Some(out[|out| - 1] + 1))
    && forall x :: SweptAt(pool, start, f, out, finds, x)
  }

  ghost predicate SweptAt(pool: nat -> Pool, start: Filter, f: Filter, out: seq<int>, finds: nat, x: int) {
    && (Has(out, x) ==> Selects(start, x) && Found(pool, x, Times(out, x), finds))
    && (Selects(start, x) && !Selects(f, x) && Stays(pool, x, finds) && !Early(pool, start, x) ==> Has(out, x))
  }

  lemma SweptLowerBound(pool: nat -> Pool, start: Filter, f: Filter, out: seq<int>, finds: nat, x: int)
    requires Swept(pool, start, f, out, finds) && start.id.None? && Selects(f, x)
    ensures Selects(start, x) && forall i :: 0 <= i < |out| ==> out[i] < x
  {
    if out != [] {
      assert SweptAt(pool, start, f, out, finds, out[|out| - 1]) && Has(out, out[|out| - 1]);
    }
  }

  /** An id of the later page is not an earlier one. */
  lemma NotTwice(out: seq<int>, page: seq<int>, x: int)
    requires forall i, j :: 0 <= i < |out| && 0 <= j < |page| ==> out[i] < page[j]
    ensures Has(out, x) ==> Times(out + page, x) == Times(out, x)
    ensures Has(page, x) ==> Times(out + page, x) == Times(page, x)
  {
    TimesConcat(out, page, x);
    TimesHas(out, x);
    TimesHas(page, x);
  }

  lemma FoundLater(pool: nat -> Pool, x: int, n: nat, finds: nat)
    requires Found(pool, x, n, finds)
    ensures Found(pool, x, n, finds + 1)
  {
    var k: nat :| k < finds && Has(pool(k), x) && n <= Times(pool(k), x);
    assert k < finds + 1 && Has(pool(k), x);
  }

  lemma FoundNow(pool: nat -> Pool, f: Filter, x: int, finds: nat)
    requires Has(Find(pool(finds), f), x)
    ensures Found(pool, x, Times(Find(pool(finds), f), x), finds + 1)
  {
    PageMembers(pool(finds), f, x);
    assert finds < finds + 1 && Has(pool(finds), x);
  }

  /** What the initial skip passes over is passed over by the first query only. */
  lemma EarlyOnly(pool: nat -> Pool, start: Filter, f: Filter, out: seq<int>, finds: nat, x: int)
    requires Swept(pool, start, f, out, finds) && !Early(pool, start, x)
    ensures !Has(Head(Matches(pool(finds), f), f.skip), x)
  {
    if finds == 0 { MatchesSame(pool(0), f, start); }
  }

  lemma SweptBehind(pool: nat -> Pool, start: Filter, f: Filter, out: seq<int>, finds: nat)
    requires Swept(pool, start, f, out, finds) && start.id.None?
    ensures forall i, j :: 0 <= i < |out| && 0 <= j < |Find(pool(finds), f)| ==> out[i] < Find(pool(finds), f)[j]
  {
    var page := Find(pool(finds), f);
    forall j | 0 <= j < |page| ensures forall i :: 0 <= i < |out| ==> out[i] < page[j] {
      assert Has(page, page[j]);
      PageMembers(pool(finds), f, page[j]);
      SweptLowerBound(pool, start, f, out, finds, page[j]);
    }
  }

  /** What is out after one page more was found. */
  lemma SweepFound(pool: nat -> Pool, start: Filter, f: Filter, out: seq<int>, finds: nat, x: int)
    requires Swept(pool, start, f, out, finds) && start.id.None?
    requires Has(out + Find(pool(finds), f), x)
    ensures Selects(start, x) && Found(pool, x, Times(out + Find(pool(finds), f), x), finds + 1)
  {
    var page := Find(pool(finds), f);
    assert SweptAt(pool, start, f, out, finds, x);
    HasConcat(out, page);
    SweptBehind(pool, start, f, out, finds);
    NotTwice(out, page, x);
    if Has(page, x) {
      PageMembers(pool(finds), f, x);
      SweptLowerBound(pool, start, f, out, finds, x);
      FoundNow(pool, f, x, finds);
    } else {
      FoundLater(pool, x, Times(out, x), finds);
    }
  }

  /** What one page more leaves out is behind it. */
  lemma SweepReached(pool: nat -> Pool, start: Filter, f: Filter, out: seq<int>, finds: nat, x: int)
    requires Swept(pool, start, f, out, finds) && Find(pool(finds), f) != []
    requires Selects(start, x) && Stays(pool, x, finds + 1) && !Early(pool, start, x)
    ensures Has(out, x) || Has(Find(pool(finds), f), x) || Find(pool(finds), f)[|Find(pool(finds), f)| - 1] < x
  {
    assert Stays(pool, x, finds) && SweptAt(pool, start, f, out, finds, x);
    if Selects(f, x) {
      EarlyOnly(pool, start, f, out, finds, x);
      PageIsFirst(pool(finds), f, x);
    }
  }

  /** One page more. */
  lemma SweepPage(pool: nat -> Pool, start: Filter, f: Filter, out: seq<int>, finds: nat)
    requires Swept(pool, start, f, out, finds) && start.id.None?
    requires Find(pool(finds), f) != []
    ensures var page := Find(pool(finds), f);
            Swept(pool, start, f.(left := Some(page[|page| - 1] + 1), skip := 0), out + page, finds + 1)
  {
    var page := Find(pool(finds), f);
    var next, both, found := f.(left := Some(page[|page| - 1] + 1), skip := 0), out + page, finds + 1;
    SweptBehind(pool, start, f, out, finds);
    PageSorted(pool(finds), f);
    HasConcat(out, page);
    forall x ensures SweptAt(pool, start, next, both, found, x) {
      if Has(both, x) {
        SweepFound(pool, start, f, out, finds, x);
      } else if Selects(start, x) && Stays(pool, x, finds + 1) && !Early(pool, start, x) {
        SweepReached(pool, start, f, out, finds, x);
      }
    }
  }

  /** A keyset scan emits ids in ascending order, no id more often than one query found it; if no query failed, it emits
      every id that was there in every query, but for those passed over by the initial skip. */
  ghost predicate SweepOutcome(pool: nat -> Pool, start: Filter, out: seq<int>, finds: nat, complete: bool) {
    Sorted(out) && forall x :: SweepAt(pool, start, out, finds, complete, x)
  }

  ghost predicate SweepAt(pool: nat -> Pool, start: Filter, out: seq<int>, finds: nat, complete: bool, x: int) {
    && (Has(out, x) ==> Selects(start, x) && Found(pool, x, Times(out, x), finds))
    && (complete && Selects(start, x) && Stays(pool, x, finds) && !Early(pool, start, x) ==> Has(out, x))
  }

  lemma SweepFails(pool: nat -> Pool, start: Filter, f: Filter, out: seq<int>, finds: nat)
    requires Swept(pool, start, f, out, finds)
    ensures SweepOutcome(pool, start, out, finds + 1, false)
  {
    var found := finds + 1;
    forall x ensures SweepAt(pool, start, out, found, false, x) {
      assert SweptAt(pool, start, f, out, finds, x);
      if Has(out, x) { FoundLater(pool, x, Times(out, x), finds); }
    }
  }

  lemma SweepEnds(pool: nat -> Pool, start: Filter, f: Filter, out: seq<int>, finds: nat)
    requires Swept(pool, start, f, out, finds) && Find(pool(finds), f) == []
    ensures SweepOutcome(pool, start, out, finds + 1, true)
  {
    var found := finds + 1;
    SweepFails(pool, start, f, out, finds);
    forall x ensures SweepAt(pool, start, out, found, true, x) {
      assert SweepAt(pool, start, out, finds + 1, false, x) && SweptAt(pool, start, f, out, finds, x);
      if Selects(start, x) && Stays(pool, x, finds + 1) && !Early(pool, start, x) {
        assert Stays(pool, x, finds);
        if Selects(f, x) {
          EarlyOnly(pool, start, f, out, finds, x);
          PageIsFirst(pool(finds), f, x);
        }
      }
    }
  }

  /** If no two rows ever carry the same id, the order is strict: each id is emitted at most once. */
  lemma SweepOnce(pool: nat -> Pool, start: Filter, out: seq<int>, finds: nat, complete: bool)
    requires SweepOutcome(pool, start, out, finds, complete) && forall k: nat :: k < finds ==> Ascending(pool(k))
    ensures Ascending(out)
  {
    forall x ensures Times(out, x) <= 1 {
      TimesHas(out, x);
      assert SweepAt(pool, start, out, finds, complete, x);
      if Has(out, x) {
        var k: nat :| k < finds && Has(pool(k), x) && Times(out, x) <= Times(pool(k), x);
        AscendingOnce(pool(k), x);
      }
    }
    OnceAscends(out);
  }

  /** Raising the left bound drops the matches up to it. */
  lemma {:induction false} MatchesBehind(s: Pool, f: Filter, g: Filter, last: int)
    requires forall x :: Selects(g, x) <==> Selects(f, x) && x > last
    ensures Matches(s, g) == Matches(s, f)[CountAtMost(Matches(s, f), last)..]
  {
    if s != [] {
      MatchesBehind(s[1..], f, g, last);
      MatchesSorted(s, f);
      if Selects(f, s[0]) { CountCons(s[0], Matches(s[1..], f), last); }
    }
  }

  lemma CountCons(h: int, rest: seq<int>, x: int)
    requires Sorted([h] + rest)
    ensures if h <= x then CountAtMost([h] + rest, x) == CountAtMost(rest, x) + 1
            else CountAtMost([h] + rest, x) == CountAtMost(rest, x) == 0
  {
    var s := [h] + rest;
    forall i, j | 0 <= i < j < |rest| ensures rest[i] <= rest[j] { assert s[i + 1] == rest[i] && s[j + 1] == rest[j]; }
    assert rest != [] ==> s[0] <= s[1] == rest[0];
    CountSplits(rest, x);
    if h <= x {
      CountIs(s, x, CountAtMost(rest, x) + 1);
    } else {
      CountIs(s, x, 0);
      CountIs(rest, x, 0);
    }
  }

  lemma TailExact(m: seq<int>, page: seq<int>, rest: seq<int>)
    requires Sorted(m) && page != [] && |page| <= |m| && page == m[..|page|]
    requires rest == m[CountAtMost(m, page[|page| - 1])..]
    ensures page + rest == m <==> |page| == |m| || m[|page|] != page[|page| - 1]
  {
    var n := |page|;
    assert m[n - 1] == page[n - 1];
    TailCount(m, n);
    if CountAtMost(m, m[n - 1]) == n {
      assert m == m[..n] + m[n..];
    } else {
      assert |page + rest| < |m|;
    }
  }

  lemma TailCount(m: seq<int>, n: nat)
    requires Sorted(m) && 0 < n <= |m|
    ensures n <= CountAtMost(m, m[n - 1])
    ensures CountAtMost(m, m[n - 1]) == n <==> n == |m| || m[n] != m[n - 1]
  {
    CountSplits(m, m[n - 1]);
  }

  lemma NextMatches(s: Pool, f: Filter, last: int)
    requires f.id.None? && Selects(f, last)
    ensures Matches(s, f.(left := Some(last + 1))) == Matches(s, f)[CountAtMost(Matches(s, f), last)..]
  {
    MatchesBehind(s, f, f.(left := Some(last + 1)), last);
  }

  lemma FirstRows(s: Pool, f: Filter)
    requires f.skip == 0 && Find(s, f) != []
    ensures var m, page := Matches(s, f), Find(s, f);
            |page| <= |m| && page == m[..|page|] && page[|page| - 1] == m[|page| - 1] && Selects(f, page[|page| - 1])
  {
    var m, n := Matches(s, f), |Find(s, f)|;
    SliceIs(m, 0, f.limit);
    assert Has(m, m[n - 1]);
    FoundInPool(s, f, m[n - 1]);
  }

  lemma KeysetRows(s: Pool, f: Filter, page: seq<int>)
    requires f.id.None? && page != [] && |page| <= |Matches(s, f)| && page == Matches(s, f)[..|page|] && Selects(f, page[|page| - 1])
    ensures var m := Matches(s, f);
            page + Matches(s, f.(left := Some(page[|page| - 1] + 1))) == m <==> |page| == |m| || m[|page|] != page[|page| - 1]
  {
    NextMatches(s, f, page[|page| - 1]);
    MatchesSorted(s, f);
    TailExact(Matches(s, f), page, Matches(s, f.(left := Some(page[|page| - 1] + 1))));
  }

  /** The keyset passes over rows exactly when a page ends between two rows with the same id. */
  lemma KeysetExact(s: Pool, f: Filter)
    requires f.id.None? && f.skip == 0 && Find(s, f) != []
    ensures var m, page := Matches(s, f), Find(s, f);
            page + Matches(s, f.(left := Some(page[|page| - 1] + 1))) == m
            <==> |page| == |m| || m[|page|] != page[|page| - 1]
  {
    FirstRows(s, f);
    KeysetRows(s, f, Find(s, f));
  }

  // ---- the scan by skip ----

  /** The page size of a scan. */
  function Pages(start: Filter): int {
    if start.limit + start.skip < PageSize then start.limit + start.skip else PageSize
  }

  /** Such a scan makes no query at all. */
  predicate Blocked(start: Filter) { start.skip > 0 && start.limit < PageSize }

  /** The collection does not change during the scan. */
  ghost predicate Unchanged(pool: nat -> Pool) {
    forall k :: pool(k) == pool(0)
  }

  /** What k queries of a scan by skip have emitted. */
  function SkipRun(pool: nat -> Pool, start: Filter, limit: int, k: nat): seq<int>
    decreases k, 0
  {
    if k == 0 then [] else SkipRun(pool, start, limit, k - 1) + SkipPageAt(pool, start, limit, k - 1)
  }

  function SkipPageAt(pool: nat -> Pool, start: Filter, limit: int, k: nat): seq<int>
    decreases k, 1
  {
    Slice(Matches(pool(k), start), start.skip + |SkipRun(pool, start, limit, k)|, limit)
  }

  /** The rows up to an id. */
  function UpTo(m: seq<int>, x: int): seq<int> {
    m[..CountAtMost(m, x)]
  }

  /** Before query k nothing changed up to the last emitted id: no such row left, and none entered. */
  ghost predicate SettledAt(pool: nat -> Pool, start: Filter, limit: int, k: nat)
    requires k > 0
  {
    var out := SkipRun(pool, start, limit, k);
    out != [] ==> UpTo(Matches(pool(k - 1), start), out[|out| - 1]) == UpTo(Matches(pool(k), start), out[|out| - 1])
  }

  ghost predicate Settled(pool: nat -> Pool, start: Filter, limit: int, finds: nat) {
    forall k: nat :: 0 < k < finds ==> SettledAt(pool, start, limit, k)
  }

  /** out is a run of m that starts at skip. */
  predicate Behind(m: seq<int>, skip: nat, out: seq<int>) {
    out != [] && skip + |out| <= |m| && out == m[skip..skip + |out|]
  }

  /** After k pages of a settled scan everything emitted is what the last query sees from the initial skip on, and what
      the initial skip passes over is as in the beginning. */
  ghost predicate Placed(pool: nat -> Pool, start: Filter, limit: int, k: nat)
    requires k > 0
  {
    && Behind(Matches(pool(k - 1), start), start.skip, SkipRun(pool, start, limit, k))
    && Head(Matches(pool(k - 1), start), start.skip) == Head(Matches(pool(0), start), start.skip)
  }

  /** A run whose rows stay and are joined by none before its end stays a run. */
  lemma BehindStays(m: seq<int>, n: seq<int>, skip: nat, out: seq<int>)
    requires Sorted(m) && Behind(m, skip, out) && UpTo(m, out[|out| - 1]) == UpTo(n, out[|out| - 1])
    ensures Behind(n, skip, out) && Head(n, skip) == Head(m, skip)
  {
    var p, c := skip + |out|, CountAtMost(m, out[|out| - 1]);
    assert out[|out| - 1] == m[p - 1];
    CountSplits(m, out[|out| - 1]);
    assert p <= c && |UpTo(n, out[|out| - 1])| == c;
    SamePart(m, n, c, skip, p);
    SamePart(m, n, c, 0, skip);
  }

  lemma SamePart(m: seq<int>, n: seq<int>, c: nat, i: nat, j: nat)
    requires i <= j <= c <= |m| && c <= |n| && m[..c] == n[..c]
    ensures m[i..j] == n[i..j]
  {
    assert m[i..j] == m[..c][i..j] && n[i..j] == n[..c][i..j];
  }

  lemma BehindPage(n: seq<int>, skip: nat, out: seq<int>, limit: int)
    requires skip + |out| <= |n| && out == n[skip..skip + |out|] && Slice(n, skip + |out|, limit) != []
    ensures Behind(n, skip, out + Slice(n, skip + |out|, limit))
  {
    var p, page := skip + |out|, Slice(n, skip + |out|, limit);
    SliceIs(n, p, limit);
    RunsJoin(n, skip, p, p + |page|);
  }

  lemma RunsJoin(m: seq<int>, i: nat, j: nat, k: nat)
    requires i <= j <= k <= |m|
    ensures m[i..k] == m[i..j] + m[j..k]
  {
  }

  lemma PlacedFirst(pool: nat -> Pool, start: Filter, limit: int)
    requires SkipPageAt(pool, start, limit, 0) != []
    ensures Placed(pool, start, limit, 1)
  {
    var m := Matches(pool(0), start);
    assert SkipRun(pool, start, limit, 0) == [];
    SliceIs(m, start.skip, limit);
    assert m[start.skip..start.skip] == [];
    BehindPage(m, start.skip, [], limit);
    assert SkipRun(pool, start, limit, 1) == [] + SkipPageAt(pool, start, limit, 0);
  }

  /** Where the next query of a settled scan starts. */
  lemma PlacedStill(pool: nat -> Pool, start: Filter, limit: int, k: nat)
    requires k > 0 && Placed(pool, start, limit, k) && SettledAt(pool, start, limit, k)
    ensures Behind(Matches(pool(k), start), start.skip, SkipRun(pool, start, limit, k))
    ensures Head(Matches(pool(k), start), start.skip) == Head(Matches(pool(0), start), start.skip)
  {
    MatchesSorted(pool(k - 1), start);
    BehindStays(Matches(pool(k - 1), start), Matches(pool(k), start), start.skip, SkipRun(pool, start, limit, k));
  }

  lemma {:induction false} SettledPlaced(pool: nat -> Pool, start: Filter, limit: int, k: nat)
    requires k > 0 && Settled(pool, start, limit, k) && forall j: nat :: j < k ==> SkipPageAt(pool, start, limit, j) != []
    ensures Placed(pool, start, limit, k)
  {
    if k == 1 {
      PlacedFirst(pool, start, limit);
    } else {
      SettledPlaced(pool, start, limit, k - 1);
      assert SettledAt(pool, start, limit, k - 1) && SkipPageAt(pool, start, limit, k - 1) != [];
      PlacedStill(pool, start, limit, k - 1);
      BehindPage(Matches(pool(k - 1), start), start.skip, SkipRun(pool, start, limit, k - 1), limit);
    }
  }

  /** The promise of a scan by skip whose emitted rows neither leave nor are joined by earlier ones: what comes out is what
      the last query sees from the initial skip on, to its end or until less than a page of the limit is left; so an id
      that is there in every query and not passed over by the initial skip is emitted or behind all emitted ones. */
  ghost predicate SettledOutcome(pool: nat -> Pool, start: Filter, out: seq<int>, finds: nat) {
    && finds > 0
    && SettledWindow(Matches(pool(finds - 1), start), start, out)
    && forall x :: SettledFor(pool, start, out, finds, x)
  }

  ghost predicate SettledFor(pool: nat -> Pool, start: Filter, out: seq<int>, finds: nat, x: int) {
    Selects(start, x) && Stays(pool, x, finds) && !Early(pool, start, x) && !Has(out, x) ==>
      start.limit - |out| < PageOf(start) && (out == [] || x > out[|out| - 1])
  }

  predicate SettledWindow(m: seq<int>, start: Filter, out: seq<int>) {
    out == Window(m, start.skip, |out|) && (start.skip + |out| >= |m| || start.limit - |out| < PageOf(start))
  }

  function PageOf(start: Filter): int {
    if start.limit < PageSize then start.limit else PageSize
  }

  lemma InRun(m: seq<int>, skip: nat, n: nat, i: nat)
    requires skip <= i < skip + n && i < |m|
    ensures Has(Window(m, skip, n), m[i])
  {
    assert Window(m, skip, n)[i - skip] == m[i];
  }

  /** An id behind what the initial skip passes over is in the window or behind it. */
  lemma InWindow(m: seq<int>, start: Filter, out: seq<int>, x: int)
    requires Sorted(m) && SettledWindow(m, start, out) && Has(m, x) && !Has(Head(m, start.skip), x) && !Has(out, x)
    ensures start.limit - |out| < PageOf(start) && (out == [] || x > out[|out| - 1])
  {
    var i :| 0 <= i < |m| && m[i] == x;
    if i < start.skip {
      InHead(m, start.skip, i);
    } else if i < start.skip + |out| {
      InRun(m, start.skip, |out|, i);
    } else if out != [] {
      assert out[|out| - 1] == m[start.skip + |out| - 1];
      assert out[|out| - 1] == x ==> Has(out, x);
    }
  }

  lemma SettledMeans(pool: nat -> Pool, start: Filter, out: seq<int>, finds: nat)
    requires finds > 0 && SettledWindow(Matches(pool(finds - 1), start), start, out)
    requires Head(Matches(pool(finds - 1), start), start.skip) == Head(Matches(pool(0), start), start.skip)
    ensures SettledOutcome(pool, start, out, finds)
  {
    var m := Matches(pool(finds - 1), start);
    forall x ensures SettledFor(pool, start, out, finds, x) {
      if Selects(start, x) && Stays(pool, x, finds) && !Early(pool, start, x) && !Has(out, x) {
        assert Has(pool(finds - 1), x);
        FoundInPool(pool(finds - 1), start, x);
        MatchesSorted(pool(finds - 1), start);
        InWindow(m, start, out, x);
      }
    }
  }

  /** The scan ends because a query finds nothing. */
  lemma SettledEnds(pool: nat -> Pool, start: Filter, limit: int, k: nat)
    requires Settled(pool, start, limit, k + 1) && forall j: nat :: j < k ==> SkipPageAt(pool, start, limit, j) != []
    requires SkipPageAt(pool, start, limit, k) == []
    ensures SettledOutcome(pool, start, SkipRun(pool, start, limit, k), k + 1)
  {
    var out, finds := SkipRun(pool, start, limit, k), k + 1;
    SettledSoFar(pool, start, limit, k);
    EmptyPage(Matches(pool(k), start), start, out, limit);
    assert finds - 1 == k;
    SettledMeans(pool, start, out, finds);
  }

  lemma SettledSoFar(pool: nat -> Pool, start: Filter, limit: int, k: nat)
    requires Settled(pool, start, limit, k + 1) && forall j: nat :: j < k ==> SkipPageAt(pool, start, limit, j) != []
    ensures var out := SkipRun(pool, start, limit, k); out == [] || Behind(Matches(pool(k), start), start.skip, out)
    ensures Head(Matches(pool(k), start), start.skip) == Head(Matches(pool(0), start), start.skip)
  {
    if k > 0 {
      SettledPlaced(pool, start, limit, k);
      assert SettledAt(pool, start, limit, k);
      PlacedStill(pool, start, limit, k);
    }
  }

  lemma EmptyPage(m: seq<int>, start: Filter, out: seq<int>, limit: int)
    requires Slice(m, start.skip + |out|, limit) == [] && (out == [] || Behind(m, start.skip, out))
    ensures SettledWindow(m, start, out)
  {
    SliceIs(m, start.skip + |out|, limit);
  }

  /** The scan ends because the limit leaves no room for another page. */
  lemma SettledStops(pool: nat -> Pool, start: Filter, limit: int, k: nat)
    requires k > 0 && Settled(pool, start, limit, k) && forall j: nat :: j < k ==> SkipPageAt(pool, start, limit, j) != []
    requires start.limit - |SkipRun(pool, start, limit, k)| < PageOf(start)
    ensures SettledOutcome(pool, start, SkipRun(pool, start, limit, k), k)
  {
    SettledPlaced(pool, start, limit, k);
    SettledMeans(pool, start, SkipRun(pool, start, limit, k), k);
  }

  // ---- how much of a collection at rest comes out ----

  /** As many rows as full pages fit into the limit. */
  function Extent(limit: int): nat {
    if limit <= 0 then 0 else if limit < PageSize then limit else limit - limit % PageSize
  }

  /** What a scan by skip emits of matches that do not change. Without a positive limit it is one query for everything. */
  function Emitted(m: seq<int>, start: Filter): seq<int> {
    if Blocked(start) then [] else if start.limit <= 0 then m else Window(m, start.skip, Extent(start.limit))
  }

  /** What the caller asks for. */
  function Wanted(m: seq<int>, start: Filter): seq<int> {
    if start.limit > 0 then Window(m, start.skip, start.limit) else Window(m, start.skip, |m|)
  }

  predicate Served(n: nat, start: Filter) {
    || n <= start.skip
    || (start.limit < PageSize && start.skip == 0)
    || (start.limit >= PageSize && (start.limit % PageSize == 0 || n <= start.skip + Extent(start.limit)))
  }

  lemma WindowLength(m: seq<int>, skip: nat, n: nat)
    ensures |Window(m, skip, n)| == if |m| <= skip then 0 else if |m| <= skip + n then |m| - skip else n
  {
  }

  /** The scan emits what was asked for exactly if the limit is a multiple of the page size, or below it without a skip,
      or the matches end before the part of a page that is cut off. */
  lemma EmittedExact(m: seq<int>, start: Filter)
    ensures Emitted(m, start) == Wanted(m, start) <==> Served(|m|, start)
  {
    WindowLength(m, start.skip, if start.limit > 0 then start.limit else |m|);
    WindowLength(m, start.skip, Extent(start.limit));
  }

  /** Whatever the collection holds. */
  lemma LimitServes(start: Filter)
    ensures (forall m: seq<int> :: Emitted(m, start) == Wanted(m, start))
            <==> if start.limit < PageSize then start.skip == 0 else start.limit % PageSize == 0
  {
    if if start.limit < PageSize then start.skip == 0 else start.limit % PageSize == 0 {
      forall m: seq<int> ensures Emitted(m, start) == Wanted(m, start) { EmittedExact(m, start); }
    } else {
      var m := seq(start.skip + Extent(start.limit) + 1, i => i);
      EmittedExact(m, start);
    }
  }

  /** So many rows can be out before a query. */
  predicate InPages(start: Filter, n: nat) {
    if start.limit <= 0 then n == 0
    else if start.limit < PageSize then n == 0 || n == start.limit
    else n % PageSize == 0 && n <= start.limit
  }

  /** Of a collection at rest full pages are out, or everything. */
  ghost predicate Paged(m: seq<int>, start: Filter, out: seq<int>) {
    && out == Window(m, start.skip, |out|)
    && (start.limit > 0 ==> |out| <= Extent(start.limit))
    && (InPages(start, |out|) || start.skip + |out| >= |m|)
  }

  lemma PagedNext(m: seq<int>, start: Filter, out: seq<int>)
    requires Paged(m, start, out) && Pages(start) + |out| <= start.limit && !Blocked(start)
    requires Slice(m, start.skip + |out|, Pages(start)) != []
    ensures Paged(m, start, out + Slice(m, start.skip + |out|, Pages(start)))
  {
    PageLength(m, start, |out|);
    WindowPage(m, start.skip, out, Pages(start));
    PagedBoth(m, start, out, Slice(m, start.skip + |out|, Pages(start)));
  }

  /** What one more page comes to. */
  lemma PageLength(m: seq<int>, start: Filter, n: nat)
    requires InPages(start, n) || start.skip + n >= |m|
    requires Pages(start) + n <= start.limit && !Blocked(start) && Slice(m, start.skip + n, Pages(start)) != []
    ensures var k := |Slice(m, start.skip + n, Pages(start))|;
            && (start.limit > 0 ==> n + k <= Extent(start.limit))
            && (InPages(start, n + k) || start.skip + n + k >= |m|)
  {
    SliceIs(m, start.skip + n, Pages(start));
    PageCounts(start, n, |Slice(m, start.skip + n, Pages(start))|, |m|);
  }

  lemma PagedBoth(m: seq<int>, start: Filter, out: seq<int>, page: seq<int>)
    requires out + page == Window(m, start.skip, |out + page|) && (start.limit > 0 ==> |out| + |page| <= Extent(start.limit))
    requires InPages(start, |out| + |page|) || start.skip + |out| + |page| >= |m|
    ensures Paged(m, start, out + page)
  {
  }

  lemma WindowPage(m: seq<int>, skip: nat, out: seq<int>, limit: int)
    requires out == Window(m, skip, |out|) && Slice(m, skip + |out|, limit) != []
    ensures var both := out + Slice(m, skip + |out|, limit); both == Window(m, skip, |both|)
  {
    SliceIs(m, skip + |out|, limit);
    WindowJoins(m, skip, |out|, |Slice(m, skip + |out|, limit)|);
  }

  /** One more page is full or the last, and still within the limit. */
  lemma PageCounts(start: Filter, n: nat, k: nat, rows: nat)
    requires !Blocked(start) && InPages(start, n) && Pages(start) + n <= start.limit && k > 0
    requires start.skip + n + k < rows ==> k == Pages(start)
    requires Pages(start) > 0 ==> k <= Pages(start)
    ensures start.limit > 0 ==> n + k <= Extent(start.limit)
    ensures InPages(start, n + k) || start.skip + n + k >= rows
  {
  }

  lemma WindowJoins(m: seq<int>, skip: nat, n: nat, k: nat)
    requires skip + n + k <= |m|
    ensures Window(m, skip, n + k) == Window(m, skip, n) + m[skip + n..skip + n + k]
  {
  }

  lemma PagedEnds(m: seq<int>, start: Filter, out: seq<int>)
    requires Paged(m, start, out) && !Blocked(start)
    requires start.skip + |out| >= |m| || Pages(start) + |out| > start.limit
    ensures out == Emitted(m, start)
  {
    if start.limit <= 0 {
      assert start.skip + |out| >= |m|;
    } else if start.skip + |out| < |m| {
      assert |out| == Extent(start.limit);
    }
  }

  /** Everything a scan by skip owes after some pages. */
  ghost predicate Skipped(pool: nat -> Pool, start: Filter, f: Filter, out: seq<int>, finds: nat) {
    && f.id == start.id && f.left == start.left && f.right == start.right && f.limit == Pages(start)
    && f.skip == start.skip + |out|
    && out == SkipRun(pool, start, f.limit, finds)
    && (forall k: nat :: k < finds ==> SkipPageAt(pool, start, f.limit, k) != [])
    && (Unchanged(pool) ==> Paged(Matches(pool(0), start), start, out))
  }

  lemma SkipStarts(pool: nat -> Pool, start: Filter)
    ensures Skipped(pool, start, start.(limit := Pages(start)), [], 0)
  {
  }

  lemma SkipFinds(pool: nat -> Pool, start: Filter, f: Filter, out: seq<int>, finds: nat)
    requires Skipped(pool, start, f, out, finds)
    ensures Find(pool(finds), f) == SkipPageAt(pool, start, f.limit, finds)
    ensures Unchanged(pool) ==> Find(pool(finds), f) == Slice(Matches(pool(0), start), start.skip + |out|, Pages(start))
  {
    MatchesSame(pool(finds), f, start);
    assert Unchanged(pool) ==> pool(finds) == pool(0);
  }

  lemma SkipPage(pool: nat -> Pool, start: Filter, f: Filter, out: seq<int>, finds: nat)
    requires Skipped(pool, start, f, out, finds) && f.limit + f.skip <= start.limit + start.skip && !Blocked(start)
    requires Find(pool(finds), f) != []
    ensures var page := Find(pool(finds), f);
            Skipped(pool, start, f.(skip := f.skip + |page|), out + page, finds + 1)
  {
    SkipFinds(pool, start, f, out, finds);
    if Unchanged(pool) { PagedNext(Matches(pool(0), start), start, out); }
  }

  /** By skip: a settled scan emits a window of what the last query sees, and of a collection at rest exactly what
      Emitted says. */
  ghost predicate SkipOutcome(pool: nat -> Pool, start: Filter, out: seq<int>, finds: nat) {
    && (!Blocked(start) && Settled(pool, start, Pages(start), finds) ==> SettledOutcome(pool, start, out, finds))
    && (Unchanged(pool) ==> out == Emitted(Matches(pool(0), start), start))
  }

  lemma SkipEnds(pool: nat -> Pool, start: Filter, f: Filter, out: seq<int>, finds: nat)
    requires Skipped(pool, start, f, out, finds) && !Blocked(start) && Find(pool(finds), f) == []
    ensures SkipOutcome(pool, start, out, finds + 1)
  {
    SkipFinds(pool, start, f, out, finds);
    if Settled(pool, start, Pages(start), finds + 1) { SettledEnds(pool, start, f.limit, finds); }
    if Unchanged(pool) {
      var m := Matches(pool(0), start);
      SliceIs(m, start.skip + |out|, Pages(start));
      PagedEnds(m, start, out);
    }
  }

  lemma SkipStops(pool: nat -> Pool, start: Filter, f: Filter, out: seq<int>, finds: nat)
    requires Skipped(pool, start, f, out, finds) && !Blocked(start) && f.limit + f.skip > start.limit + start.skip
    ensures SkipOutcome(pool, start, out, finds)
  {
    assert finds > 0;
    if Settled(pool, start, Pages(start), finds) { SettledStops(pool, start, f.limit, finds); }
    if Unchanged(pool) { PagedEnds(Matches(pool(0), start), start, out); }
  }

  // ---- the scan for a single id by keyset ----

  lemma OneMatch(s: seq<int>, f: Filter)
    requires f.id.Some?
    ensures Matches(s, f) == [] <==> !Has(s, f.id.value)
    ensures forall i :: 0 <= i < |Matches(s, f)| ==> Matches(s, f)[i] == f.id.value
    ensures Ascending(s) ==> |Matches(s, f)| <= 1
  {
    var m := Matches(s, f);
    forall i | 0 <= i < |m| ensures m[i] == f.id.value && Has(s, m[i]) {
      assert Has(m, m[i]);
      FoundInPool(s, f, m[i]);
    }
    FoundInPool(s, f, f.id.value);
    if Ascending(s) { MatchesAscend(s, f); }
  }

  lemma OnePage(s: seq<int>, f: Filter)
    requires f.id.Some? && Find(s, f) != []
    ensures Has(s, f.id.value)
    ensures forall i :: 0 <= i < |Find(s, f)| ==> Find(s, f)[i] == f.id.value
    ensures Ascending(s) ==> |Find(s, f)| == 1
  {
    var m, page := Matches(s, f), Find(s, f);
    OneMatch(s, f);
    SliceIs(m, f.skip, f.limit);
    forall i | 0 <= i < |page| ensures page[i] == m[f.skip + i] {}
  }

  /** The id is emitted for every row of every query until one does not find it. */
  ghost predicate RepeatOutcome(pool: nat -> Pool, start: Filter, out: seq<int>, finds: nat, complete: bool)
    requires start.id.Some?
  {
    && 0 < finds <= |out| + 1
    && (forall i :: 0 <= i < |out| ==> out[i] == start.id.value)
    && (forall k: nat :: k < finds - 1 ==> Has(pool(k), start.id.value))
    && (complete && (finds > 1 || start.skip == 0) ==> !Has(pool(finds - 1), start.id.value))
    && ((forall k: nat :: k < finds ==> Ascending(pool(k))) ==> |out| == finds - 1)
  }

  /** The single id was there in all queries so far. */
  ghost predicate Repeated(pool: nat -> Pool, failing: set<nat>, start: Filter, f: Filter, out: seq<int>, finds: nat)
    requires start.id.Some?
  {
    && finds <= |out| && (forall i :: 0 <= i < |out| ==> out[i] == start.id.value)
    && (forall k: nat :: k < finds ==> k !in failing && Has(pool(k), start.id.value))
    && f.skip == (if finds == 0 then start.skip else 0)
    && ((forall k: nat :: k < finds ==> Ascending(pool(k))) ==> |out| == finds)
  }

  /** A scan for a single id by keyset ends once a query fails or does not find it. */
  ghost predicate Leaves(pool: nat -> Pool, failing: set<nat>, start: Filter, last: nat) {
    start.id.Some? ==> last in failing || !Has(pool(last), start.id.value)
  }

  lemma RepeatPage(pool: nat -> Pool, failing: set<nat>, last: nat, start: Filter, f: Filter, out: seq<int>, finds: nat)
    requires start.id.Some? && f.id == start.id && Repeated(pool, failing, start, f, out, finds) && Leaves(pool, failing, start, last)
    requires finds !in failing && Find(pool(finds), f) != []
    ensures Repeated(pool, failing, start, Advance(f, Find(pool(finds), f), true), out + Find(pool(finds), f), finds + 1)
    ensures finds < last
  {
    OnePage(pool(finds), f);
  }

  lemma RepeatEnds(pool: nat -> Pool, failing: set<nat>, start: Filter, f: Filter, out: seq<int>, finds: nat)
    requires start.id.Some? && f.id == start.id && Repeated(pool, failing, start, f, out, finds)
    requires Find(pool(finds), f) == []
    ensures RepeatOutcome(pool, start, out, finds + 1, true)
  {
    OneMatch(pool(finds), f);
    SliceIs(Matches(pool(finds), f), f.skip, f.limit);
  }

  // ---- the paging loop ----

  function Advance(f: Filter, page: seq<int>, keyset: bool): Filter
    requires page != []
  {
    if keyset then f.(left := Some(page[|page| - 1] + 1), skip := 0) else f.(skip := f.skip + |page|)
  }

  /** No id ever found is greater than bound. */
  ghost predicate Bounded(pool: nat -> Pool, bound: int) {
    forall k, i {:trigger pool(k)[i]} :: 0 <= i < |pool(k)| ==> pool(k)[i] <= bound
  }

  /** What bounds the number of pages: a keyset scan has a left bound after the first page, which then only grows. */
  function Phase(f: Filter, keyset: bool): nat {
    if keyset && f.id.None? && f.left.None? then 1 else 0
  }

  function Left(f: Filter, keyset: bool, bound: int, total: int, last: nat, finds: nat): nat {
    if !keyset then
      if f.limit + f.skip <= total then total - f.skip - f.limit + 1 else 0
    else if f.id.Some? then
      if finds <= last then last - finds + 1 else 0
    else if f.left.None? then 0
    else Room(f.left.value, bound)
  }

  predicate Sooner(f: Filter, next: Filter, keyset: bool, bound: int, total: int, last: nat, finds: nat) {
    || Phase(next, keyset) < Phase(f, keyset)
    || (Phase(next, keyset) == Phase(f, keyset)
        && Left(next, keyset, bound, total, last, finds + 1) < Left(f, keyset, bound, total, last, finds))
  }

  /** Where a scan stands after some pages. */
  ghost predicate Progress(pool: nat -> Pool, failing: set<nat>, start: Filter, f: Filter, out: seq<int>, finds: nat, keyset: bool) {
    match Mode(start, keyset)
    case Sweeping => f.limit == Pages(start) && Swept(pool, start, f, out, finds)
    case Repeating => f.limit == Pages(start) && f.id == start.id && Repeated(pool, failing, start, f, out, finds)
    case Skipping => Skipped(pool, start, f, out, finds)
  }

  datatype Kind = Sweeping | Repeating | Skipping

  function Mode(start: Filter, keyset: bool): Kind {
    if !keyset then Skipping else if start.id.None? then Sweeping else Repeating
  }

  lemma ScanStarts(pool: nat -> Pool, failing: set<nat>, start: Filter, keyset: bool)
    ensures Progress(pool, failing, start, start.(limit := Pages(start)), [], 0, keyset)
  {
    SkipStarts(pool, start);
  }

  /** A sweep comes closer to the greatest id. */
  lemma SweepSooner(pool: nat -> Pool, bound: int, f: Filter, finds: nat)
    requires Bounded(pool, bound) && f.id.None? && Find(pool(finds), f) != []
    ensures var page := Find(pool(finds), f);
            page[|page| - 1] <= bound && (f.left.Some? ==> f.left.value <= page[|page| - 1])
  {
    var page := Find(pool(finds), f);
    assert Has(page, page[|page| - 1]);
    PageMembers(pool(finds), f, page[|page| - 1]);
  }

  lemma ScanPage(pool: nat -> Pool, bound: int, failing: set<nat>, last: nat, start: Filter, f: Filter, out: seq<int>,
                 finds: nat, keyset: bool)
    requires Bounded(pool, bound) && (keyset ==> Leaves(pool, failing, start, last)) && !Blocked(start)
    requires Progress(pool, failing, start, f, out, finds, keyset) && f.limit + f.skip <= start.limit + start.skip
    requires finds !in failing && Find(pool(finds), f) != []
    ensures var page := Find(pool(finds), f);
            var next := Advance(f, page, keyset);
            && Progress(pool, failing, start, next, out + page, finds + 1, keyset)
            && Sooner(f, next, keyset, bound, start.limit + start.skip, last, finds)
  {
    if !keyset {
      SkipPage(pool, start, f, out, finds);
    } else if start.id.Some? {
      RepeatPage(pool, failing, last, start, f, out, finds);
    } else {
      SweepPage(pool, start, f, out, finds);
      SweepSooner(pool, bound, f, finds);
    }
  }

  /** What a scan promises: by keyset a sweep, or for a single id its repetition; by skip, when no query failed, a window
      of what the last query sees if the scan is settled, and exactly Emitted if nothing changes. A skip with a limit
      below the page size finds nothing at all. */
  ghost predicate Outcome(pool: nat -> Pool, start: Filter, out: seq<int>, finds: nat, complete: bool, keyset: bool) {
    if Blocked(start) then out == [] && finds == 0
    else
      match Mode(start, keyset)
      case Sweeping => SweepOutcome(pool, start, out, finds, complete)
      case Repeating => RepeatOutcome(pool, start, out, finds, complete)
      case Skipping => complete ==> SkipOutcome(pool, start, out, finds)
  }

  lemma ScanGoesOn(pool: nat -> Pool, failing: set<nat>, start: Filter, f: Filter, out: seq<int>, finds: nat, keyset: bool)
    requires Progress(pool, failing, start, f, out, finds, keyset) && f.limit + f.skip <= start.limit + start.skip
    requires Blocked(start) ==> f.skip == start.skip
    ensures !Blocked(start)
  {
  }

  lemma ScanFails(pool: nat -> Pool, failing: set<nat>, start: Filter, f: Filter, out: seq<int>, finds: nat, keyset: bool)
    requires Progress(pool, failing, start, f, out, finds, keyset) && !Blocked(start)
    ensures Outcome(pool, start, out, finds + 1, false, keyset)
  {
    if keyset && start.id.None? { SweepFails(pool, start, f, out, finds); }
  }

  lemma ScanEnds(pool: nat -> Pool, failing: set<nat>, start: Filter, f: Filter, out: seq<int>, finds: nat, keyset: bool)
    requires Progress(pool, failing, start, f, out, finds, keyset) && !Blocked(start) && Find(pool(finds), f) == []
    ensures Outcome(pool, start, out, finds + 1, true, keyset)
  {
    if !keyset {
      SkipEnds(pool, start, f, out, finds);
    } else if start.id.Some? {
      RepeatEnds(pool, failing, start, f, out, finds);
    } else {
      SweepEnds(pool, start, f, out, finds);
    }
  }

  lemma ScanStops(pool: nat -> Pool, failing: set<nat>, start: Filter, f: Filter, out: seq<int>, finds: nat, keyset: bool)
    requires Progress(pool, failing, start, f, out, finds, keyset) && f.limit + f.skip > start.limit + start.skip
    requires Blocked(start) ==> out == [] && finds == 0
    ensures Outcome(pool, start, out, finds, true, keyset)
  {
    if !keyset && !Blocked(start) { SkipStops(pool, start, f, out, finds); }
  }

  /** The paging loop. pool(k) is what the k-th query finds in place; failing says which queries fail. With keyset the
      next page starts behind the last id, otherwise skip advances. complete tells that no query failed; finds is the
      number of queries. A keyset scan for a single id ends with the first query, not later than last, that fails or
      does not find it. */
  method FindChannel(pool: nat -> Pool, ghost bound: int, failing: set<nat>, ghost last: nat, start: Filter, keyset: bool)
    returns (out: seq<int>, finds: nat, complete: bool)
    requires Bounded(pool, bound)
    requires keyset ==> Leaves(pool, failing, start, last)
    ensures Outcome(pool, start, out, finds, complete, keyset)
    ensures !complete ==> finds > 0 && finds - 1 in failing
  {
    out, finds, complete := [], 0, true;
    var total := start.limit + start.skip;
    var f := start.(limit := if total < PageSize then total else PageSize);
    ScanStarts(pool, failing, start, keyset);
    while f.limit + f.skip <= total
      invariant Progress(pool, failing, start, f, out, finds, keyset)
      invariant Blocked(start) ==> f.skip == start.skip && out == [] && finds == 0
      decreases Phase(f, keyset), Left(f, keyset, bound, total, last, finds)
    {
      ScanGoesOn(pool, failing, start, f, out, finds, keyset);
      var page, ok := Query(pool, bound, failing, last, start, f, out, finds, keyset);
      finds := finds + 1;
      if !ok || page == [] { return out, finds, ok; }
      out, f := out + page, Advance(f, page, keyset);
    }
    ScanStops(pool, failing, start, f, out, finds, keyset);
  }

  /** One query, and where the scan stands after it. */
  method Query(pool: nat -> Pool, ghost bound: int, failing: set<nat>, ghost last: nat, ghost start: Filter, f: Filter,
               ghost out: seq<int>, finds: nat, ghost keyset: bool)
    returns (page: seq<int>, ok: bool)
    requires Bounded(pool, bound) && (keyset ==> Leaves(pool, failing, start, last))
    requires Progress(pool, failing, start, f, out, finds, keyset) && f.limit + f.skip <= start.limit + start.skip
    requires !Blocked(start)
    ensures !ok ==> finds in failing
    ensures !ok || page == [] ==> Outcome(pool, start, out, finds + 1, ok, keyset)
    ensures ok && page != [] ==> Progress(pool, failing, start, Advance(f, page, keyset), out + page, finds + 1, keyset)
    ensures ok && page != [] ==> Sooner(f, Advance(f, page, keyset), keyset, bound, start.limit + start.skip, last, finds)
  {
    page, ok := [], finds !in failing;
    if ok { page := Find(pool(finds), f); }
    if !ok {
      ScanFails(pool, failing, start, f, out, finds, keyset);
    } else if page == [] {
      ScanEnds(pool, failing, start, f, out, finds, keyset);
    } else {
      ScanPage(pool, bound, failing, last, start, f, out, finds, keyset);
    }
  }

  lemma StaysUnchanged(pool: nat -> Pool, x: int, finds: nat)
    requires Unchanged(pool)
    ensures Has(pool(0), x) ==> Stays(pool, x, finds)
    ensures forall n: nat :: Found(pool, x, n, finds) ==> Has(pool(0), x)
  {
    forall k: nat ensures pool(k) == pool(0) {}
  }

  /** A keyset scan takes no notice of the limit: whatever it is, all ids of a collection at rest are emitted, and with
      distinct ids exactly the matches. */
  lemma KeysetIgnoresLimit(pool: nat -> Pool, start: Filter, out: seq<int>, finds: nat)
    requires Unchanged(pool) && start.skip == 0 && SweepOutcome(pool, start, out, finds, true)
    ensures forall x :: Has(out, x) <==> Has(Matches(pool(0), start), x)
    ensures Ascending(pool(0)) ==> out == Matches(pool(0), start)
  {
    forall x ensures Has(out, x) <==> Has(Matches(pool(0), start), x) {
      assert SweepAt(pool, start, out, finds, true, x);
      FoundInPool(pool(0), start, x);
      StaysUnchanged(pool, x, finds);
    }
    if Ascending(pool(0)) {
      forall k: nat ensures pool(k) == pool(0) {}
      SweepOnce(pool, start, out, finds, true);
      MatchesAscend(pool(0), start);
      SameMembers(out, Matches(pool(0), start));
    }
  }

  /** The ids that lie in the range, both ends included, or the single one asked for. */
  lemma KeysetRange(pool: nat -> Pool, start: Filter, out: seq<int>, finds: nat, x: int)
    requires Unchanged(pool) && start.skip == 0 && SweepOutcome(pool, start, out, finds, true)
    ensures start.id.Some? ==> (Has(out, x) <==> Has(pool(0), x) && x == start.id.value)
    ensures start.id.None? ==>
      (Has(out, x) <==> Has(pool(0), x) && (start.left == None || start.left.value <= x) && (start.right == None || x <= start.right.value))
  {
    KeysetIgnoresLimit(pool, start, out, finds);
    FoundInPool(pool(0), start, x);
  }

  // ---- where it falls short ----

  /** The next row that is due is the one behind the rows up to the last emitted id. If the skip is smaller, because
      smaller ids have entered, the page goes back; if it is greater than the rows up to the due id, because emitted ones
      have left, the due id is passed over; in between the page starts with the due id. */
  lemma SkipExact(m: seq<int>, last: int, p: nat, limit: int)
    requires Sorted(m) && CountAtMost(m, last) < |m| && Slice(m, p, limit) != []
    ensures var page, due := Slice(m, p, limit), m[CountAtMost(m, last)];
            && (page[0] == due <==> CountAtMost(m, last) <= p < CountAtMost(m, due))
            && (p >= CountAtMost(m, due) ==> forall i :: 0 <= i < |page| ==> page[i] > due)
            && (p < CountAtMost(m, last) ==> page[0] <= last)
  {
    CountSplits(m, last);
    CountSplits(m, m[CountAtMost(m, last)]);
    SliceIs(m, p, limit);
    forall i | 0 <= i < |Slice(m, p, limit)| ensures Slice(m, p, limit)[i] == m[p + i] {}
  }

  /** When some of the rows up to the last emitted id leave and none enters there, the next query passes over the row that
      is due, and over its id as well unless a later row carries it. */
  lemma LeavingLoses(before: seq<int>, now: seq<int>, p: nat, limit: int)
    requires Sorted(now) && 0 < p <= |before| && multiset(UpTo(now, before[p - 1])) < multiset(before[..p])
    requires CountAtMost(now, before[p - 1]) < |now|
    ensures var c := CountAtMost(now, before[p - 1]);
            c < p && now[c] > before[p - 1] && (Has(Slice(now, p, limit), now[c]) <==> p < CountAtMost(now, now[c]))
  {
    var c := CountAtMost(now, before[p - 1]);
    FewerLeft(UpTo(now, before[p - 1]), before[..p]);
    CountSplits(now, before[p - 1]);
    SliceHas(now, p, limit, c);
  }

  /** A slice that starts behind a row has the id of that row if and only if it starts at a row of that id. */
  lemma SliceHas(m: seq<int>, p: nat, limit: int, c: nat)
    requires Sorted(m) && c < p && c < |m|
    ensures Has(Slice(m, p, limit), m[c]) <==> p < CountAtMost(m, m[c])
  {
    var page := Slice(m, p, limit);
    SliceIs(m, p, limit);
    CountSplits(m, m[c]);
    forall i | 0 <= i < |page| ensures page[i] == m[p + i] {}
    if p < CountAtMost(m, m[c]) { assert page[0] == m[c]; }
  }

  lemma FewerLeft(left: seq<int>, all: seq<int>)
    requires multiset(left) < multiset(all)
    ensures |left| < |all|
  {
    assert multiset(all) == multiset(left) + (multiset(all) - multiset(left));
    assert |multiset(left)| == |left| && |multiset(all)| == |all|;
  }

  /** A filter for a single id ignores the left bound, so as long as that comic matches, the page behind it is that
      comic again. */
  lemma SingleIdRepeats(s: seq<int>, f: Filter)
    requires f.id.Some? && f.skip == 0 && Find(s, f) != []
    ensures var page := Find(s, f); Find(s, f.(left := Some(page[|page| - 1] + 1), skip := 0)) == page
  {
    MatchesSame(s, f, f.(left := Some(Find(s, f)[|Find(s, f)| - 1] + 1)));
  }

  /** Ids from first to last. */
  function Range(first: int, last: int): (s: seq<int>)
    ensures |s| == (if first <= last then last - first + 1 else 0)
    ensures forall i :: 0 <= i < |s| ==> s[i] == first + i
    decreases last - first
  {
    if first > last then [] else [first] + Range(first + 1, last)
  }

  /** A filter without bounds, or with a left bound that all meet, drops nothing. */
  lemma {:induction false} MatchesAll(s: seq<int>, f: Filter)
    requires forall i :: 0 <= i < |s| ==> Selects(f, s[i])
    ensures Matches(s, f) == s
  {
    if s != [] { MatchesAll(s[1..], f); }
  }

  lemma RangeHead(n: nat, k: nat)
    requires k <= n
    ensures Range(1, n)[..k] == Range(1, k)
  {
  }

  /** Advancing by skip loses comics when emitted ones leave the collection: of n comics the first page of p is emitted
      and archived, and the next page is empty although the others have never been seen. The keyset advance finds them. */
  lemma SkipLosesComics(p: nat, n: nat)
    requires 0 < p < n <= 2 * p
    ensures var f := Filter(None, None, None, p, 0);
            && Find(Range(1, n), f) == Range(1, p)
            && Find(Range(p + 1, n), f.(skip := p)) == []
            && Find(Range(p + 1, n), f.(left := Some(p + 1))) == Range(p + 1, n) != []
  {
    FirstPage(p, n);
    LaterPages(p, n);
  }

  lemma FirstPage(p: nat, n: nat)
    requires 0 < p < n
    ensures Find(Range(1, n), Filter(None, None, None, p, 0)) == Range(1, p)
  {
    MatchesAll(Range(1, n), Filter(None, None, None, p, 0));
    RangeHead(n, p);
  }

  lemma LaterPages(p: nat, n: nat)
    requires 0 < p < n <= 2 * p
    ensures Find(Range(p + 1, n), Filter(None, None, None, p, p)) == []
    ensures Find(Range(p + 1, n), Filter(None, Some(p + 1), None, p, 0)) == Range(p + 1, n) != []
  {
    MatchesAll(Range(p + 1, n), Filter(None, None, None, p, p));
    MatchesAll(Range(p + 1, n), Filter(None, Some(p + 1), None, p, 0));
  }

  /** The keyset advance passes over the second of two rows with the same id when a page ends between them. */
  lemma KeysetPassesOver()
    ensures var f := Filter(None, None, None, 1, 0);
            Find([7, 7], f) == [7] && Find([7, 7], f.(left := Some(8))) == []
  {
    var f := Filter(None, None, None, 1, 0);
    MatchesAll([7, 7], f);
    NextMatches([7, 7], f, 7);
    CountIs([7, 7], 7, 2);
  }

  /** Of three hundred comics a limit of two hundred and fifty emits two hundred. */
  lemma TailIsCut()
    ensures var start := Filter(None, None, None, 250, 0); Emitted(Matches(Range(1, 300), start), start) == Range(1, 200)
  {
    MatchesAll(Range(1, 300), Filter(None, None, None, 250, 0));
    RangeHead(300, 200);
  }
}
