/** Collecting the comics whose archives need attention. Every query is limited on its own before the results are merged
    and limited again; the question is when that changes nothing. */
module LimitPushdown {
  import opened Sequences

  /** Distinct ids in ascending order. */
  type Ids = s: seq<int> | Ascending(s)

  /** Ids in query order: ascending, possibly repeated. A row without an id reads as 0 and may stand anywhere. */
  predicate InOrder(s: seq<int>) {
    forall i, j :: 0 <= i < j < |s| && s[i] != 0 && s[j] != 0 ==> s[i] <= s[j]
  }

  /** The rows one query finds. */
  type Rows = s: seq<int> | InOrder(s)

  /** rows(backend, false) are the comics without a copy there, rows(backend, true) those with a bad one. */
  type Collection = (string, bool) -> Rows

  datatype Issue = Issue(cid: int, missing: seq<string>, unhealthy: seq<string>)

  function Top(s: seq<int>, limit: int): seq<int> {
    if 0 < limit < |s| then s[..limit] else s
  }

  function NonZero(s: seq<int>): (r: seq<int>)
    ensures forall c :: Has(r, c) <==> Has(s, c) && c != 0
  {
    if s == [] then []
    else
      HasCons(s);
      HasCons([s[0]] + NonZero(s[1..]));
      assert ([s[0]] + NonZero(s[1..]))[1..] == NonZero(s[1..]);
      if s[0] != 0 then [s[0]] + NonZero(s[1..]) else NonZero(s[1..])
  }

  /** A limited query. Rows without an id are dropped after the limit was applied. */
  function Queried(rows: Collection, backend: string, unhealthy: bool, limit: int): seq<int> {
    NonZero(Top(rows(backend, unhealthy), limit))
  }

  function Adjoin(backends: seq<string>, backend: string): seq<string> {
    if backend in backends then backends else backends + [backend]
  }

  /** The backends, in order and without repetition, whose query finds the comic. */
  function Listed(rows: Collection, limit: int, backends: seq<string>, unhealthy: bool, cid: int): (r: seq<string>)
    ensures forall b :: b in r <==> b in backends && Has(Queried(rows, b, unhealthy, limit), cid)
  {
    if backends == [] then []
    else
      var last := |backends| - 1;
      var before := Listed(rows, limit, backends[..last], unhealthy, cid);
      assert backends == backends[..last] + [backends[last]];
      if Has(Queried(rows, backends[last], unhealthy, limit), cid) then Adjoin(before, backends[last]) else before
  }

  function Insert(s: Ids, c: int): (r: Ids)
    ensures forall x :: Has(r, x) <==> Has(s, x) || x == c
  {
    HasOne(c);
    HasConcat([c], s);
    if s == [] then [c]
    else if c == s[0] then s
    else if c < s[0] then [c] + s
    else
      HasCons(s);
      var rest := Insert(s[1..], c);
      HasHead(s[0], rest);
      AllAbove(s[0], s[1..], c, rest);
      [s[0]] + rest
  }

  lemma AllAbove(h: int, s: seq<int>, c: int, rest: seq<int>)
    requires h < c && forall i :: 0 <= i < |s| ==> h < s[i]
    requires forall x :: Has(rest, x) <==> Has(s, x) || x == c
    ensures forall i :: 0 <= i < |rest| ==> h < rest[i]
  {
    forall i | 0 <= i < |rest| ensures h < rest[i] {
      assert Has(rest, rest[i]);
    }
  }

  function InsertAll(s: Ids, cids: seq<int>): (r: Ids)
    ensures forall x :: Has(r, x) <==> Has(s, x) || Has(cids, x)
    decreases |cids|
  {
    if cids == [] then s
    else
      HasCons(cids);
      InsertAll(Insert(s, cids[0]), cids[1..])
  }

  /** The ids that occur, each once. */
  function IdsOf(s: seq<int>): (r: Ids)
    ensures forall x :: Has(r, x) <==> Has(s, x) && x != 0
  {
    InsertAll([], NonZero(s))
  }

  /** The comics found by the queries of one kind, merged. */
  function FoundBy(rows: Collection, limit: int, backends: seq<string>, unhealthy: bool): (r: Ids)
    ensures forall c :: Has(r, c) <==> exists b :: b in backends && Has(Queried(rows, b, unhealthy, limit), c)
  {
    if backends == [] then []
    else
      var last := |backends| - 1;
      assert backends == backends[..last] + [backends[last]];
      InsertAll(FoundBy(rows, limit, backends[..last], unhealthy), Queried(rows, backends[last], unhealthy, limit))
  }

  /** The comics found by any query. */
  function Found(rows: Collection, limit: int, backends: seq<string>): Ids {
    InsertAll(FoundBy(rows, limit, backends, false), FoundBy(rows, limit, backends, true))
  }

  function IssueOf(rows: Collection, limit: int, backends: seq<string>, cid: int): Issue {
    Issue(cid, Listed(rows, limit, backends, false, cid), Listed(rows, limit, backends, true, cid))
  }

  /** The issues when every query takes at most pushed rows and the merged list at most limit. */
  function Issues(rows: Collection, pushed: int, limit: int, backends: seq<string>): seq<Issue> {
    var cids := Top(Found(rows, pushed, backends), limit);
    seq(|cids|, i requires 0 <= i < |cids| => IssueOf(rows, pushed, backends, cids[i]))
  }

  /** A row that a limited query loses: it stands behind the limit although fewer ids than the limit stand before it,
      because rows without an id or with a repeated one take up room. */
  predicate Lost(rows: Collection, limit: int, backend: string, unhealthy: bool, i: int) {
    var r := rows(backend, unhealthy);
    0 < limit <= i < |r| && r[i] != 0 && !Has(r[..i], r[i]) && |IdsOf(r[..i])| < limit
  }

  /** No query loses a comic that belongs to the merged and limited list. */
  ghost predicate NothingLost(rows: Collection, limit: int, backends: seq<string>) {
    forall b, u, i :: b in backends && Lost(rows, limit, b, u, i) ==>
                        !Has(Top(Found(rows, 0, backends), limit), rows(b, u)[i])
  }

  // ---- ascending lists ----

  /** Two ascending lists, one within the other, that share the first limit of the longer one, have the same top. */
  lemma {:induction false} SameTop(s: Ids, t: Ids, limit: int)
    requires limit > 0
    requires forall x :: Has(s, x) ==> Has(t, x)
    requires forall x :: Has(Top(t, limit), x) ==> Has(s, x)
    ensures Top(s, limit) == Top(t, limit)
    decreases |t|
  {
    if t != [] {
      assert t[0] == Top(t, limit)[0] && Has(Top(t, limit), t[0]);
      HeadWithin(s, t);
      if limit > 1 {
        TopWithin(s, t, limit);
        SameTop(s[1..], t[1..], limit - 1);
      }
      assert Top(s, limit) == [s[0]] + (if limit > 1 then Top(s[1..], limit - 1) else []);
      assert Top(t, limit) == [t[0]] + (if limit > 1 then Top(t[1..], limit - 1) else []);
    } else if s != [] {
      HeadWithin(s, t);
    }
  }

  lemma TopWithin(s: Ids, t: Ids, limit: int)
    requires limit > 1 && s != [] && t != [] && s[0] == t[0]
    requires forall x :: Has(Top(t, limit), x) ==> Has(s, x)
    ensures forall x :: Has(Top(t[1..], limit - 1), x) ==> Has(s[1..], x)
  {
    forall x | Has(Top(t[1..], limit - 1), x) ensures Has(s[1..], x) {
      var j :| 0 <= j < |Top(t[1..], limit - 1)| && Top(t[1..], limit - 1)[j] == x;
      assert Top(t, limit)[j + 1] == x && t[0] < x;
      assert Has(Top(t, limit), x);
      var m :| 0 <= m < |s| && s[m] == x;
      assert s[1..][m - 1] == x;
    }
  }

  // ---- pushing the limit down ----

  lemma LimitFindsLess(rows: Collection, limit: int, backends: seq<string>)
    ensures forall c :: Has(Found(rows, limit, backends), c) ==> Has(Found(rows, 0, backends), c)
  {
    forall b, u, c | Has(Queried(rows, b, u, limit), c) ensures Has(Queried(rows, b, u, 0), c) {
      assert Has(Top(rows(b, u), limit), c);
    }
  }

  function FirstAt(s: seq<int>, c: int): (i: nat)
    requires Has(s, c)
    ensures i < |s| && s[i] == c && !Has(s[..i], c)
  {
    if s[0] == c then 0
    else
      HasCons(s);
      var i := FirstAt(s[1..], c) + 1;
      HasCons(s[..i]);
      assert s[..i][1..] == s[1..][..i - 1];
      i
  }

  lemma EarlierSmaller(r: Rows, i: nat, x: int)
    requires i < |r| && r[i] != 0 && !Has(r[..i], r[i]) && x != 0 && Has(r[..i], x)
    ensures x < r[i] && Has(r, x)
  {
    var j :| 0 <= j < i && r[..i][j] == x;
    assert r[j] == x;
  }

  lemma RowFound(rows: Collection, backends: seq<string>, b: string, u: bool, x: int)
    requires b in backends && Has(rows(b, u), x) && x != 0
    ensures Has(Found(rows, 0, backends), x)
  {
    assert Has(Queried(rows, b, u, 0), x);
    assert Has(FoundBy(rows, 0, backends, u), x);
  }

  lemma SmallerBefore(all: Ids, k: nat, x: int)
    requires k < |all| && Has(all, x) && x < all[k]
    ensures Has(all[..k], x)
  {
    var m :| 0 <= m < |all| && all[m] == x;
    assert all[..k][m] == x;
  }

  /** The ids that stand before the first row of a comic are smaller, so they precede it in the merged list. */
  lemma QueryWithin(rows: Collection, backends: seq<string>, b: string, u: bool, i: nat, k: nat)
    requires b in backends && i < |rows(b, u)| && k < |Found(rows, 0, backends)|
    requires Found(rows, 0, backends)[k] == rows(b, u)[i] != 0 && !Has(rows(b, u)[..i], rows(b, u)[i])
    ensures forall x :: Has(IdsOf(rows(b, u)[..i]), x) ==> Has(Found(rows, 0, backends)[..k], x)
  {
    forall x | Has(IdsOf(rows(b, u)[..i]), x) ensures Has(Found(rows, 0, backends)[..k], x) {
      EarlierSmaller(rows(b, u), i, x);
      RowFound(rows, backends, b, u, x);
      SmallerBefore(Found(rows, 0, backends), k, x);
    }
  }

  /** A comic of the merged top has fewer than limit ids before it in every query that finds it. */
  lemma TopIsEarly(rows: Collection, limit: int, backends: seq<string>, b: string, u: bool, i: nat)
    requires limit > 0 && b in backends && i < |rows(b, u)| && rows(b, u)[i] != 0 && !Has(rows(b, u)[..i], rows(b, u)[i])
    requires Has(Top(Found(rows, 0, backends), limit), rows(b, u)[i])
    ensures |IdsOf(rows(b, u)[..i])| < limit
  {
    var r, all := rows(b, u), Found(rows, 0, backends);
    var k :| 0 <= k < |Top(all, limit)| && Top(all, limit)[k] == r[i];
    QueryWithin(rows, backends, b, u, i, k);
    SubsetShorter(IdsOf(r[..i]), all[..k]);
  }

  lemma NotLost(rows: Collection, limit: int, backends: seq<string>, b: string, u: bool, i: int)
    requires NothingLost(rows, limit, backends) && b in backends && 0 <= i < |rows(b, u)|
    requires Has(Top(Found(rows, 0, backends), limit), rows(b, u)[i])
    ensures !Lost(rows, limit, b, u, i)
  {
  }

  lemma TopIsQueried(rows: Collection, limit: int, backends: seq<string>, b: string, u: bool, c: int)
    requires limit > 0 && NothingLost(rows, limit, backends)
    requires b in backends && Has(Top(Found(rows, 0, backends), limit), c)
    ensures Has(Queried(rows, b, u, 0), c) <==> Has(Queried(rows, b, u, limit), c)
  {
    var r := rows(b, u);
    if Has(Queried(rows, b, u, 0), c) {
      var i := FirstAt(r, c);
      TopIsEarly(rows, limit, backends, b, u, i);
      NotLost(rows, limit, backends, b, u, i);
      assert Top(r, limit)[i] == c;
    }
  }

  lemma {:induction false} SameListed(rows: Collection, limit: int, backends: seq<string>, u: bool, c: int)
    requires forall b :: b in backends ==> (Has(Queried(rows, b, u, 0), c) <==> Has(Queried(rows, b, u, limit), c))
    ensures Listed(rows, 0, backends, u, c) == Listed(rows, limit, backends, u, c)
    decreases |backends|
  {
    if backends != [] {
      SameListed(rows, limit, backends[..|backends| - 1], u, c);
    }
  }

  lemma TopSame(rows: Collection, limit: int, backends: seq<string>, c: int)
    requires limit > 0 && NothingLost(rows, limit, backends) && Has(Top(Found(rows, 0, backends), limit), c)
    ensures IssueOf(rows, limit, backends, c) == IssueOf(rows, 0, backends, c)
    ensures Has(Found(rows, limit, backends), c)
  {
    forall b, u | b in backends ensures Has(Queried(rows, b, u, 0), c) <==> Has(Queried(rows, b, u, limit), c) {
      TopIsQueried(rows, limit, backends, b, u, c);
    }
    SameListed(rows, limit, backends, false, c);
    SameListed(rows, limit, backends, true, c);
    assert Has(Found(rows, 0, backends), c);
  }

  lemma PushdownWorks(rows: Collection, limit: int, backends: seq<string>)
    requires limit > 0 && NothingLost(rows, limit, backends)
    ensures Issues(rows, limit, limit, backends) == Issues(rows, 0, limit, backends)
  {
    LimitFindsLess(rows, limit, backends);
    forall c | Has(Top(Found(rows, 0, backends), limit), c)
      ensures Has(Found(rows, limit, backends), c) && IssueOf(rows, limit, backends, c) == IssueOf(rows, 0, backends, c)
    {
      TopSame(rows, limit, backends, c);
    }
    SameTop(Found(rows, limit, backends), Found(rows, 0, backends), limit);
  }

  lemma LostNotQueried(rows: Collection, limit: int, b: string, u: bool, i: int)
    requires Lost(rows, limit, b, u, i)
    ensures !Has(Queried(rows, b, u, limit), rows(b, u)[i]) && Has(Queried(rows, b, u, 0), rows(b, u)[i])
  {
    var r := rows(b, u);
    forall j | 0 <= j < limit ensures r[j] != r[i] { assert r[..i][j] == r[j]; }
    assert Top(r, limit) == r[..limit];
  }

  lemma OtherLists(rows: Collection, limit: int, backends: seq<string>, b: string, u: bool, c: int)
    requires b in backends && Has(Queried(rows, b, u, 0), c) && !Has(Queried(rows, b, u, limit), c)
    ensures IssueOf(rows, limit, backends, c) != IssueOf(rows, 0, backends, c)
  {
    assert b in Listed(rows, 0, backends, u, c) && b !in Listed(rows, limit, backends, u, c);
  }

  lemma IssueAt(rows: Collection, pushed: int, limit: int, backends: seq<string>, k: nat)
    requires k < |Issues(rows, pushed, limit, backends)|
    ensures Issues(rows, pushed, limit, backends)[k] == IssueOf(rows, pushed, backends, Issues(rows, pushed, limit, backends)[k].cid)
  {
  }

  lemma PushdownNeeded(rows: Collection, limit: int, backends: seq<string>, b: string, u: bool, i: int)
    requires b in backends && Lost(rows, limit, b, u, i) && Has(Top(Found(rows, 0, backends), limit), rows(b, u)[i])
    ensures Issues(rows, limit, limit, backends) != Issues(rows, 0, limit, backends)
  {
    var c, top := rows(b, u)[i], Top(Found(rows, 0, backends), limit);
    var k :| 0 <= k < |top| && top[k] == c;
    LostNotQueried(rows, limit, b, u, i);
    OtherLists(rows, limit, backends, b, u, c);
    var all, pushed := Issues(rows, 0, limit, backends), Issues(rows, limit, limit, backends);
    assert all[k] == IssueOf(rows, 0, backends, c);
    if k < |pushed| { IssueAt(rows, limit, limit, backends, k); }
  }

  /** Limiting every query and the merged list gives the same issues as limiting the merged list alone if and only if no
      query loses a row of the result. */
  lemma PushdownExact(rows: Collection, limit: int, backends: seq<string>)
    ensures Issues(rows, limit, limit, backends) == Issues(rows, 0, limit, backends) <==> NothingLost(rows, limit, backends)
  {
    if limit <= 0 {
      SameIssues(rows, limit, backends);
    } else if NothingLost(rows, limit, backends) {
      PushdownWorks(rows, limit, backends);
    } else {
      var b, u, i :| b in backends && Lost(rows, limit, b, u, i) && Has(Top(Found(rows, 0, backends), limit), rows(b, u)[i]);
      PushdownNeeded(rows, limit, backends, b, u, i);
    }
  }

  /** Distinct ids take up one row each. */
  lemma NoneLost(rows: Collection, limit: int, b: string, u: bool, i: int)
    requires Ascending(rows(b, u)) && !Has(rows(b, u), 0)
    ensures !Lost(rows, limit, b, u, i)
  {
    var r := rows(b, u);
    if 0 < limit <= i < |r| {
      forall x ensures Has(IdsOf(r[..i]), x) <==> Has(r[..i], x) {
        if Has(r[..i], x) {
          var j :| 0 <= j < i && r[..i][j] == x;
          assert r[j] == x;
        }
      }
      SameMembers(IdsOf(r[..i]), r[..i]);
    }
  }

  /** In particular the limit can be pushed down when every row has an id of its own. */
  lemma PushdownWithIds(rows: Collection, limit: int, backends: seq<string>)
    requires forall b, u :: b in backends ==> Ascending(rows(b, u)) && !Has(rows(b, u), 0)
    ensures Issues(rows, limit, limit, backends) == Issues(rows, 0, limit, backends)
  {
    forall b, u, i | b in backends ensures !Lost(rows, limit, b, u, i) {
      NoneLost(rows, limit, b, u, i);
    }
    PushdownExact(rows, limit, backends);
  }

  lemma SameIssues(rows: Collection, limit: int, backends: seq<string>)
    requires limit <= 0
    ensures Issues(rows, limit, limit, backends) == Issues(rows, 0, limit, backends)
  {
    assert forall b, u :: Queried(rows, b, u, limit) == Queried(rows, b, u, 0);
    SameMembers(Found(rows, limit, backends), Found(rows, 0, backends));
    forall c ensures IssueOf(rows, limit, backends, c) == IssueOf(rows, 0, backends, c) {
      SameListed(rows, limit, backends, false, c);
      SameListed(rows, limit, backends, true, c);
    }
  }

  /** One backend that lacks the copies of the comics in r. */
  function OneDisk(r: Rows): Collection { (b, u) => if u then [] else r }

  lemma OneDiskIssues(r: Rows, pushed: int, limit: int, ids: Ids)
    requires forall x :: Has(ids, x) <==> Has(Top(r, pushed), x) && x != 0
    ensures Issues(OneDisk(r), pushed, limit, ["disk"])
            == seq(|Top(ids, limit)|, i requires 0 <= i < |Top(ids, limit)| => Issue(Top(ids, limit)[i], ["disk"], []))
  {
    var rows, disk := OneDisk(r), ["disk"];
    assert Queried(rows, "disk", true, pushed) == [];
    assert disk[..0] == [] && disk[0] == "disk" && "disk" in disk;
    forall x ensures Has(Found(rows, pushed, disk), x) <==> Has(Queried(rows, "disk", false, pushed), x) {
      assert forall b :: b in disk ==> b == "disk";
    }
    SameMembers(Found(rows, pushed, disk), ids);
    forall i | 0 <= i < |Top(ids, limit)| ensures IssueOf(rows, pushed, disk, Top(ids, limit)[i]) == Issue(Top(ids, limit)[i], disk, []) {
      assert ids[i] == Top(ids, limit)[i] && Has(ids, ids[i]);
      OneListed(rows, pushed, ids[i]);
    }
  }

  lemma OneListed(rows: Collection, limit: int, c: int)
    requires Has(Queried(rows, "disk", false, limit), c) && !Has(Queried(rows, "disk", true, limit), c)
    ensures IssueOf(rows, limit, ["disk"], c) == Issue(c, ["disk"], [])
  {
    assert ["disk"][..0] == [] && Adjoin([], "disk") == ["disk"];
    assert Listed(rows, limit, [], false, c) == [] == Listed(rows, limit, [], true, c);
  }

  /** One row without an id is enough to lose a comic: with limit 1 the only comic that needs attention is not found. */
  lemma ZeroRowHidesComic()
    ensures Issues(OneDisk([0, 7]), 1, 1, ["disk"]) == []
    ensures Issues(OneDisk([0, 7]), 0, 1, ["disk"]) == [Issue(7, ["disk"], [])]
  {
    var r := [0, 7];
    HasOne(7);
    HasCons(r);
    assert r[1..] == [7];
    HasOne(0);
    assert Top(r, 1) == [0];
    OneDiskIssues(r, 1, 1, []);
    OneDiskIssues(r, 0, 1, [7]);
  }

  /** Several such rows in front, where also the row at the limit has no id. */
  lemma ZeroRowsHideComic()
    ensures Issues(OneDisk([0, 0, 7]), 1, 1, ["disk"]) == []
    ensures Issues(OneDisk([0, 0, 7]), 0, 1, ["disk"]) == [Issue(7, ["disk"], [])]
  {
    var r := [0, 0, 7];
    HasOne(7);
    HasCons(r);
    HasCons(r[1..]);
    assert r[1..][1..] == [7];
    HasOne(0);
    assert Top(r, 1) == [0];
    OneDiskIssues(r, 1, 1, []);
    OneDiskIssues(r, 0, 1, [7]);
  }

  /** A repeated id takes up room in the same way: of [7, 7, 8] a query limited to two finds one comic. */
  lemma RepeatedRowHidesComic()
    ensures Issues(OneDisk([7, 7, 8]), 2, 2, ["disk"]) == [Issue(7, ["disk"], [])]
    ensures Issues(OneDisk([7, 7, 8]), 0, 2, ["disk"]) == [Issue(7, ["disk"], []), Issue(8, ["disk"], [])]
  {
    RepeatedPushed();
    RepeatedMerged();
  }

  lemma RepeatedPushed()
    ensures Issues(OneDisk([7, 7, 8]), 2, 2, ["disk"]) == [Issue(7, ["disk"], [])]
  {
    RepeatedRows();
    assert Top([7, 7, 8], 2) == [7, 7];
    OneDiskIssues([7, 7, 8], 2, 2, [7]);
  }

  lemma RepeatedMerged()
    ensures Issues(OneDisk([7, 7, 8]), 0, 2, ["disk"]) == [Issue(7, ["disk"], []), Issue(8, ["disk"], [])]
  {
    RepeatedRows();
    OneDiskIssues([7, 7, 8], 0, 2, [7, 8]);
  }

  lemma RepeatedRows()
    ensures forall x :: Has([7, 7], x) <==> Has([7], x)
    ensures forall x :: Has([7, 7, 8], x) <==> Has([7, 8], x)
    ensures !Has([7], 0) && !Has([7, 8], 0)
  {
    HasConcat([7], [7]);
    assert [7] + [7] == [7, 7];
    HasConcat([7], [8]);
    assert [7] + [8] == [7, 8];
    HasConcat([7], [7, 8]);
    assert [7] + [7, 8] == [7, 7, 8];
    HasOne(7);
    HasOne(8);
  }

  // ---- what the issues say ----

  /** The query finds the comic within its limit. */
  predicate Shows(rows: Collection, pushed: int, b: string, u: bool, c: int) {
    c != 0 && exists i :: 0 <= i < |rows(b, u)| && (pushed > 0 ==> i < pushed) && rows(b, u)[i] == c
  }

  lemma ShowsIs(rows: Collection, pushed: int, b: string, u: bool, c: int)
    ensures Shows(rows, pushed, b, u, c) <==> Has(Queried(rows, b, u, pushed), c)
  {
    var top := Top(rows(b, u), pushed);
    if Shows(rows, pushed, b, u, c) {
      var i :| 0 <= i < |rows(b, u)| && (pushed > 0 ==> i < pushed) && rows(b, u)[i] == c;
      assert top[i] == c;
    }
    if Has(top, c) && c != 0 {
      var i :| 0 <= i < |top| && top[i] == c;
      assert rows(b, u)[i] == c;
    }
  }

  /** Backends without repetition, in the order in which the list first mentions them. */
  ghost predicate AsMentioned(r: seq<string>, backends: seq<string>) {
    forall j, k :: 0 <= j < k < |r| ==>
      r[j] != r[k] && exists p :: 0 <= p < |backends| && backends[p] == r[j] && r[k] !in backends[..p]
  }

  lemma MentionedWiden(r: seq<string>, backends: seq<string>, last: string)
    requires AsMentioned(r, backends)
    ensures AsMentioned(r, backends + [last])
  {
    var more := backends + [last];
    forall j, k | 0 <= j < k < |r|
      ensures r[j] != r[k] && exists p :: 0 <= p < |more| && more[p] == r[j] && r[k] !in more[..p]
    {
      var p :| 0 <= p < |backends| && backends[p] == r[j] && r[k] !in backends[..p];
      assert more[p] == r[j] && more[..p] == backends[..p];
    }
  }

  lemma MentionedNext(r: seq<string>, backends: seq<string>, last: string)
    requires AsMentioned(r, backends + [last]) && last !in backends && forall j :: 0 <= j < |r| ==> r[j] in backends
    ensures AsMentioned(r + [last], backends + [last])
  {
    var all, more := r + [last], backends + [last];
    forall j, k | 0 <= j < k < |all|
      ensures all[j] != all[k] && exists p :: 0 <= p < |more| && more[p] == all[j] && all[k] !in more[..p]
    {
      assert all[j] == r[j];
      if k == |r| {
        var p :| 0 <= p < |backends| && backends[p] == r[j];
        assert more[p] == r[j] && more[..p] == backends[..p];
      } else {
        assert all[k] == r[k];
      }
    }
  }

  lemma {:induction false} ListedAsMentioned(rows: Collection, pushed: int, backends: seq<string>, u: bool, c: int)
    ensures AsMentioned(Listed(rows, pushed, backends, u, c), backends)
    decreases |backends|
  {
    if backends != [] {
      var before, last := backends[..|backends| - 1], backends[|backends| - 1];
      var earlier := Listed(rows, pushed, before, u, c);
      assert backends == before + [last];
      ListedAsMentioned(rows, pushed, before, u, c);
      MentionedWiden(earlier, before, last);
      if Has(Queried(rows, last, u, pushed), c) && last !in earlier { MentionedNext(earlier, before, last); }
    }
  }

  /** An issue names the backends whose queries find its comic: those without a copy, and those with a bad one. */
  ghost predicate Says(issue: Issue, rows: Collection, pushed: int, backends: seq<string>) {
    && (forall b :: b in issue.missing <==> b in backends && Shows(rows, pushed, b, false, issue.cid))
    && (forall b :: b in issue.unhealthy <==> b in backends && Shows(rows, pushed, b, true, issue.cid))
    && AsMentioned(issue.missing, backends) && AsMentioned(issue.unhealthy, backends)
  }

  ghost predicate ShownBySome(rows: Collection, pushed: int, backends: seq<string>, c: int) {
    exists b, u :: b in backends && Shows(rows, pushed, b, u, c)
  }

  lemma FoundIsShown(rows: Collection, pushed: int, backends: seq<string>, c: int)
    ensures Has(Found(rows, pushed, backends), c) <==> ShownBySome(rows, pushed, backends, c)
  {
    forall b, u ensures Shows(rows, pushed, b, u, c) <==> Has(Queried(rows, b, u, pushed), c) { ShowsIs(rows, pushed, b, u, c); }
    forall u ensures Has(FoundBy(rows, pushed, backends, u), c) ==> ShownBySome(rows, pushed, backends, c) {
      if Has(FoundBy(rows, pushed, backends, u), c) {
        var b :| b in backends && Has(Queried(rows, b, u, pushed), c);
        assert Shows(rows, pushed, b, u, c);
      }
    }
    if ShownBySome(rows, pushed, backends, c) {
      var b, u :| b in backends && Shows(rows, pushed, b, u, c);
      assert Has(FoundBy(rows, pushed, backends, u), c);
    }
  }

  lemma IssueSays(rows: Collection, pushed: int, backends: seq<string>, c: int)
    ensures Says(IssueOf(rows, pushed, backends, c), rows, pushed, backends)
  {
    forall b, u ensures Shows(rows, pushed, b, u, c) <==> Has(Queried(rows, b, u, pushed), c) { ShowsIs(rows, pushed, b, u, c); }
    ListedAsMentioned(rows, pushed, backends, false, c);
    ListedAsMentioned(rows, pushed, backends, true, c);
  }

  /** The list of issues is long enough for the comic, or the limit cuts it before the comic. */
  ghost predicate IssuedOrCut(r: seq<Issue>, limit: int, c: int) {
    (exists i :: 0 <= i < |r| && r[i].cid == c) || (limit > 0 && |r| == limit && r[limit - 1].cid < c)
  }

  lemma InTopOrCut(all: Ids, limit: int, k: nat)
    requires k < |all|
    ensures k < |Top(all, limit)| || (limit > 0 && |Top(all, limit)| == limit && all[limit - 1] < all[k])
  {
  }

  lemma ShownIssued(rows: Collection, pushed: int, limit: int, backends: seq<string>, c: int)
    requires ShownBySome(rows, pushed, backends, c)
    ensures IssuedOrCut(Issues(rows, pushed, limit, backends), limit, c)
  {
    FoundIsShown(rows, pushed, backends, c);
    var r, all := Issues(rows, pushed, limit, backends), Found(rows, pushed, backends);
    var k :| 0 <= k < |all| && all[k] == c;
    InTopOrCut(all, limit, k);
    assert k < |r| ==> r[k].cid == c;
  }

  lemma IssuedShown(rows: Collection, pushed: int, limit: int, backends: seq<string>, i: nat)
    requires i < |Issues(rows, pushed, limit, backends)|
    ensures var issue := Issues(rows, pushed, limit, backends)[i];
      ShownBySome(rows, pushed, backends, issue.cid) && Says(issue, rows, pushed, backends)
  {
    var c := Found(rows, pushed, backends)[i];
    IssueSays(rows, pushed, backends, c);
    FoundIsShown(rows, pushed, backends, c);
  }

  lemma IssuesAscend(rows: Collection, pushed: int, limit: int, backends: seq<string>)
    ensures var r := Issues(rows, pushed, limit, backends);
      (forall i, j :: 0 <= i < j < |r| ==> r[i].cid < r[j].cid) && (limit > 0 ==> |r| <= limit)
  {
  }

  /** Every issue is about a comic that some query finds, and says which. */
  ghost predicate AllSay(r: seq<Issue>, rows: Collection, pushed: int, backends: seq<string>) {
    forall i :: 0 <= i < |r| ==> ShownBySome(rows, pushed, backends, r[i].cid) && Says(r[i], rows, pushed, backends)
  }

  lemma IssuesSay(rows: Collection, pushed: int, limit: int, backends: seq<string>)
    ensures AllSay(Issues(rows, pushed, limit, backends), rows, pushed, backends)
  {
    var r := Issues(rows, pushed, limit, backends);
    forall i | 0 <= i < |r| ensures ShownBySome(rows, pushed, backends, r[i].cid) && Says(r[i], rows, pushed, backends) {
      IssuedShown(rows, pushed, limit, backends, i);
    }
  }

  /** There is one issue for each of the first comics that some query finds, in ascending order, as many as the limit
      allows, and it says which queries find the comic. */
  lemma IssuesMean(rows: Collection, pushed: int, limit: int, backends: seq<string>)
    ensures var r := Issues(rows, pushed, limit, backends);
      && (forall i, j :: 0 <= i < j < |r| ==> r[i].cid < r[j].cid)
      && (limit > 0 ==> |r| <= limit)
      && AllSay(r, rows, pushed, backends)
      && (forall c :: ShownBySome(rows, pushed, backends, c) ==> IssuedOrCut(r, limit, c))
  {
    IssuesAscend(rows, pushed, limit, backends);
    IssuesSay(rows, pushed, limit, backends);
    forall c | ShownBySome(rows, pushed, backends, c) ensures IssuedOrCut(Issues(rows, pushed, limit, backends), limit, c) {
      ShownIssued(rows, pushed, limit, backends, c);
    }
  }

  // ---- the collecting loops ----

  /** The table holds exactly the comics found so far with their lists, where the queries for missing copies were sent
      to the first backends and those for bad copies to the second. */
  ghost predicate Holds(table: map<int, Issue>, rows: Collection, limit: int, first: seq<string>, second: seq<string>) {
    && (forall c :: c in table <==> Has(FoundBy(rows, limit, first, false), c) || Has(FoundBy(rows, limit, second, true), c))
    && forall c :: c in table ==>
         table[c] == Issue(c, Listed(rows, limit, first, false, c), Listed(rows, limit, second, true, c))
  }

  function Entry(table: map<int, Issue>, cid: int): Issue {
    if cid in table then table[cid] else Issue(cid, [], [])
  }

  function Noted(issue: Issue, backend: string, unhealthy: bool): Issue {
    if unhealthy then issue.(unhealthy := Adjoin(issue.unhealthy, backend))
    else issue.(missing := Adjoin(issue.missing, backend))
  }

  /** The table after a query found cids. */
  ghost predicate NotedAll(table: map<int, Issue>, r: map<int, Issue>, cids: seq<int>, backend: string, unhealthy: bool) {
    && (forall c :: c in r <==> c in table || Has(cids, c))
    && forall c :: c in r ==> r[c] == if Has(cids, c) then Noted(Entry(table, c), backend, unhealthy) else table[c]
  }

  method Note(table: map<int, Issue>, keys: Ids, cids: seq<int>, backend: string, unhealthy: bool)
    returns (r: map<int, Issue>, rkeys: Ids)
    requires forall c :: Has(keys, c) <==> c in table
    ensures NotedAll(table, r, cids, backend, unhealthy)
    ensures forall c :: Has(rkeys, c) <==> c in r
  {
    r, rkeys := table, keys;
    for i := 0 to |cids|
      invariant NotedAll(table, r, cids[..i], backend, unhealthy)
      invariant forall c :: Has(rkeys, c) <==> c in r
    {
      assert cids[..i + 1] == cids[..i] + [cids[i]];
      NotedNext(table, r, cids[..i], cids[i], backend, unhealthy);
      r, rkeys := r[cids[i] := Noted(Entry(r, cids[i]), backend, unhealthy)], Insert(rkeys, cids[i]);
    }
    assert cids[..|cids|] == cids;
  }

  lemma NotedNext(table: map<int, Issue>, r: map<int, Issue>, cids: seq<int>, c: int, backend: string, unhealthy: bool)
    requires NotedAll(table, r, cids, backend, unhealthy)
    ensures NotedAll(table, r[c := Noted(Entry(r, c), backend, unhealthy)], cids + [c], backend, unhealthy)
  {
    var once := Noted(Entry(table, c), backend, unhealthy);
    HasConcat(cids, [c]);
    HasOne(c);
    assert Noted(once, backend, unhealthy) == once;
  }

  lemma EntryIs(table: map<int, Issue>, rows: Collection, limit: int, first: seq<string>, second: seq<string>, c: int)
    requires Holds(table, rows, limit, first, second)
    ensures Entry(table, c) == Issue(c, Listed(rows, limit, first, false, c), Listed(rows, limit, second, true, c))
  {
    if c !in table {
      NotListed(rows, limit, first, false, c);
      NotListed(rows, limit, second, true, c);
    }
  }

  lemma NotListed(rows: Collection, limit: int, backends: seq<string>, u: bool, c: int)
    requires !Has(FoundBy(rows, limit, backends, u), c)
    ensures Listed(rows, limit, backends, u, c) == []
  {
    NonEmptyHasMember(Listed(rows, limit, backends, u, c));
  }

  lemma ListedNext(rows: Collection, limit: int, backends: seq<string>, b: string, u: bool, c: int)
    ensures Listed(rows, limit, backends + [b], u, c)
            == if Has(Queried(rows, b, u, limit), c) then Adjoin(Listed(rows, limit, backends, u, c), b)
               else Listed(rows, limit, backends, u, c)
    ensures Has(FoundBy(rows, limit, backends + [b], u), c) <==> Has(FoundBy(rows, limit, backends, u), c) || Has(Queried(rows, b, u, limit), c)
  {
    assert (backends + [b])[..|backends|] == backends;
  }

  /** Noting one more query keeps the table. */
  lemma NotedQuery(table: map<int, Issue>, r: map<int, Issue>, rows: Collection, limit: int,
                   first: seq<string>, second: seq<string>, b: string, u: bool)
    requires Holds(table, rows, limit, first, second)
    requires NotedAll(table, r, Queried(rows, b, u, limit), b, u)
    ensures if u then Holds(r, rows, limit, first, second + [b]) else Holds(r, rows, limit, first + [b], second)
  {
    forall c
      ensures Has(FoundBy(rows, limit, if u then second + [b] else first + [b], u), c)
              <==> Has(FoundBy(rows, limit, if u then second else first, u), c) || Has(Queried(rows, b, u, limit), c)
      ensures c in r ==> r[c] == Issue(c, Listed(rows, limit, if u then first else first + [b], false, c),
                                          Listed(rows, limit, if u then second + [b] else second, true, c))
    {
      ListedNext(rows, limit, if u then second else first, b, u, c);
      EntryIs(table, rows, limit, first, second, c);
    }
  }

  method Collect(rows: Collection, limit: int, backends: seq<string>) returns (issues: seq<Issue>)
    ensures issues == Issues(rows, limit, limit, backends)
  {
    var table, keys := Gather(rows, limit, backends);
    SameMembers(keys, Found(rows, limit, backends));
    TopHas(keys, limit);
    issues := Pick(table, Top(keys, limit));
    assert issues == Issues(rows, limit, limit, backends);
  }

  ghost predicate Gathered(table: map<int, Issue>, keys: Ids, rows: Collection, limit: int, backends: seq<string>) {
    Holds(table, rows, limit, backends, backends) && forall c :: Has(keys, c) <==> c in table
  }

  method Gather(rows: Collection, limit: int, backends: seq<string>) returns (table: map<int, Issue>, keys: Ids)
    ensures Gathered(table, keys, rows, limit, backends)
  {
    table, keys := map[], [];
    for i := 0 to |backends|
      invariant Gathered(table, keys, rows, limit, backends[..i])
    {
      table, keys := NoteBackend(table, keys, rows, limit, backends, i);
    }
    assert backends[..|backends|] == backends;
  }

  lemma TopHas(keys: Ids, limit: int)
    ensures forall i :: 0 <= i < |Top(keys, limit)| ==> Has(keys, Top(keys, limit)[i])
  {
  }

  /** One query: its comics are noted under the backend. */
  method NoteQuery(table: map<int, Issue>, keys: Ids, rows: Collection, limit: int, b: string, u: bool,
                   ghost first: seq<string>, ghost second: seq<string>)
    returns (r: map<int, Issue>, rkeys: Ids)
    requires Holds(table, rows, limit, first, second) && forall c :: Has(keys, c) <==> c in table
    ensures if u then Holds(r, rows, limit, first, second + [b]) else Holds(r, rows, limit, first + [b], second)
    ensures forall c :: Has(rkeys, c) <==> c in r
  {
    r, rkeys := Note(table, keys, Queried(rows, b, u, limit), b, u);
    NotedQuery(table, r, rows, limit, first, second, b, u);
  }

  method NoteBackend(table: map<int, Issue>, keys: Ids, rows: Collection, limit: int, backends: seq<string>, i: nat)
    returns (r: map<int, Issue>, rkeys: Ids)
    requires i < |backends| && Gathered(table, keys, rows, limit, backends[..i])
    ensures Gathered(r, rkeys, rows, limit, backends[..i + 1])
  {
    var b := backends[i];
    ghost var before := backends[..i];
    assert backends[..i + 1] == before + [b];
    r, rkeys := NoteQuery(table, keys, rows, limit, b, false, before, before);
    r, rkeys := NoteQuery(r, rkeys, rows, limit, b, true, before + [b], before);
  }

  method Pick(table: map<int, Issue>, cids: seq<int>) returns (issues: seq<Issue>)
    requires forall i :: 0 <= i < |cids| ==> cids[i] in table
    ensures |issues| == |cids| && forall i :: 0 <= i < |cids| ==> issues[i] == table[cids[i]]
  {
    issues := [];
    for i := 0 to |cids|
      invariant |issues| == i && forall j :: 0 <= j < i ==> issues[j] == table[cids[j]]
    {
      issues := issues + [table[cids[i]]];
    }
  }
}
