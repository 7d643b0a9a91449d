/** Comics that stand in for others: every comic may name one it redirects to, and redirects must not form chains. */
module Redirects {
  import opened Sequences

  const ChainLimit := 100

  predicate Distinct(s: seq<int>) {
    forall i, j :: 0 <= i < j < |s| ==> s[i] != s[j]
  }

  type Redirect = map<int, int>

  /** Nothing redirects to a comic that redirects itself: no cycle and no chain of two steps. */
  ghost predicate Forest(r: Redirect) {
    forall c :: c in r ==> r[c] !in r
  }

  /** Only known comics redirect. */
  ghost predicate Known(order: seq<int>, r: Redirect) {
    forall c :: c in r ==> Has(order, c)
  }

  function Resolve(r: Redirect, c: int): int {
    if c in r then r[c] else c
  }

  /** The comics that redirect to c, in storage order. */
  function Pointing(order: seq<int>, r: Redirect, c: int): (s: seq<int>)
    ensures |s| <= |order|
  {
    if order == [] then []
    else if order[0] in r && r[order[0]] == c then [order[0]] + Pointing(order[1..], r, c)
    else Pointing(order[1..], r, c)
  }

  function Top(s: seq<int>, limit: nat): seq<int> {
    if limit < |s| then s[..limit] else s
  }

  /** The comics of chain sent to target, except those whose record cannot be written. */
  function Repointed(r: Redirect, chain: seq<int>, target: int, failing: set<int>): Redirect {
    map c | c in r :: if Has(chain, c) && c !in failing then target else r[c]
  }

  /** Redirecting sub and, as far as the query and the writes reach, the comics that redirected to it. */
  function Moved(order: seq<int>, r: Redirect, sub: int, target: int, failing: set<int>): Redirect {
    var linked := r[sub := target];
    Repointed(linked, Top(Pointing(order, linked, sub), ChainLimit), target, failing)
  }

  predicate CanLink(order: seq<int>, main: int, sub: int, failing: set<int>) {
    Has(order, main) && Has(order, sub) && main !in failing && sub !in failing
  }

  /** Linking sub to main, or to what main redirects to. */
  function Linked(order: seq<int>, r: Redirect, main: int, sub: int, failing: set<int>): Redirect {
    if CanLink(order, main, sub, failing) then Moved(order, r, sub, Resolve(r, main), failing) else r
  }

  // ---- one link ----

  /** Every comic that redirects to sub is found and can be written. */
  predicate AllMovable(order: seq<int>, r: Redirect, sub: int, failing: set<int>) {
    var followers := Pointing(order, r, sub);
    |followers| <= ChainLimit && forall i :: 0 <= i < |followers| ==> followers[i] !in failing
  }

  lemma {:induction false} PointingMeans(order: seq<int>, r: Redirect, c: int)
    ensures forall x :: Has(Pointing(order, r, c), x) <==> Has(order, x) && x in r && r[x] == c
  {
    if order != [] {
      var rest := Pointing(order[1..], r, c);
      PointingMeans(order[1..], r, c);
      HasCons(order);
      HasCons([order[0]] + rest);
      assert ([order[0]] + rest)[1..] == rest;
    }
  }

  lemma {:induction false} PointingDistinct(order: seq<int>, r: Redirect, c: int)
    requires Distinct(order)
    ensures Distinct(Pointing(order, r, c))
  {
    if order != [] {
      var rest := Pointing(order[1..], r, c);
      PointingDistinct(order[1..], r, c);
      PointingMeans(order[1..], r, c);
      forall i | 0 <= i < |rest| ensures rest[i] != order[0] {
        assert Has(rest, rest[i]);
        assert Has(order[1..], rest[i]);
      }
    }
  }

  lemma {:induction false} PointingSame(order: seq<int>, r: Redirect, q: Redirect, c: int)
    requires forall x :: (x in r && r[x] == c) <==> (x in q && q[x] == c)
    ensures Pointing(order, r, c) == Pointing(order, q, c)
  {
    if order != [] { PointingSame(order[1..], r, q, c); }
  }

  /** What Moved does to a comic other than sub when all followers can be moved. */
  lemma MovedAll(order: seq<int>, r: Redirect, sub: int, target: int, failing: set<int>, c: int)
    requires Forest(r) && Known(order, r) && target != sub && AllMovable(order, r, sub, failing)
    ensures var m := Moved(order, r, sub, target, failing);
            && (c in m <==> c in r || c == sub)
            && (c in m ==> m[c] == if c == sub || r[c] == sub then target else r[c])
  {
    var linked := r[sub := target];
    PointingSame(order, r, linked, sub);
    PointingMeans(order, r, sub);
    if c in r && r[c] == sub {
      var i :| 0 <= i < |Pointing(order, r, sub)| && Pointing(order, r, sub)[i] == c;
    }
  }

  /** One comic that could not be moved still redirects to sub. */
  lemma LeftBehind(order: seq<int>, r: Redirect, sub: int, target: int, failing: set<int>)
    requires Forest(r) && Distinct(order) && target != sub && !AllMovable(order, r, sub, failing)
    ensures var m := Moved(order, r, sub, target, failing); exists c :: c in m && c != sub && m[c] == sub
  {
    var linked, m, followers := r[sub := target], Moved(order, r, sub, target, failing), Pointing(order, r, sub);
    PointingSame(order, r, linked, sub);
    PointingMeans(order, r, sub);
    PointingDistinct(order, r, sub);
    var k := if |followers| > ChainLimit then ChainLimit else Failing(followers, failing);
    var c := followers[k];
    assert Has(followers, c);
    assert c in m && m[c] == sub;
  }

  function Failing(s: seq<int>, failing: set<int>): (k: nat)
    requires exists i :: 0 <= i < |s| && s[i] in failing
    ensures k < |s| && s[k] in failing
  {
    if s[0] in failing then 0 else Failing(s[1..], failing) + 1
  }

  /** How many comics before position p of the storage order redirect to c. */
  function Rank(order: seq<int>, r: Redirect, c: int, p: nat): nat
    requires p <= |order|
  {
    if p == 0 then 0 else (if order[0] in r && r[order[0]] == c then 1 else 0) + Rank(order[1..], r, c, p - 1)
  }

  lemma {:induction false} TopOfPointing(order: seq<int>, r: Redirect, c: int, limit: nat, p: nat)
    requires Distinct(order) && p < |order|
    ensures Has(Top(Pointing(order, r, c), limit), order[p])
            <==> order[p] in r && r[order[p]] == c && Rank(order, r, c, p) < limit
  {
    var all, follows := Pointing(order, r, c), order[0] in r && r[order[0]] == c;
    var rest := Pointing(order[1..], r, c);
    PointingMeans(order, r, c);
    TopMembers(all, limit, order[p]);
    if p > 0 {
      assert order[1..][p - 1] == order[p];
      if !follows {
        TopOfPointing(order[1..], r, c, limit, p - 1);
      } else if limit > 0 {
        TopOfPointing(order[1..], r, c, limit - 1, p - 1);
        assert Top(all, limit) == [order[0]] + Top(rest, limit - 1);
        HasHead(order[0], Top(rest, limit - 1));
      }
    } else if follows && limit > 0 {
      assert Top(all, limit)[0] == order[0];
    }
  }

  lemma TopMembers(s: seq<int>, limit: nat, x: int)
    ensures Has(Top(s, limit), x) ==> Has(s, x)
  {
    if Has(Top(s, limit), x) {
      var i :| 0 <= i < |Top(s, limit)| && Top(s, limit)[i] == x;
      assert s[i] == x;
    }
  }

  /** What a link does in any case, whether or not it keeps the forest: sub redirects to the target; then, in storage order,
      the first hundred comics that redirect to sub are sent to the target, but for those that cannot be written. */
  lemma LinkEffect(order: seq<int>, r: Redirect, main: int, sub: int, failing: set<int>, p: nat)
    requires Distinct(order) && CanLink(order, main, sub, failing) && p < |order|
    ensures var c, target, after := order[p], if main in r then r[main] else main, Linked(order, r, main, sub, failing);
      var linked := r[sub := target];
      && (c in after <==> c in r || c == sub)
      && (c in after ==>
            after[c] == if linked[c] == sub && c !in failing && Rank(order, linked, sub, p) < 100 then target else linked[c])
  {
    TopOfPointing(order, r[sub := Resolve(r, main)], sub, ChainLimit, p);
  }

  /** A link keeps the forest exactly if main does not redirect to sub and every follower of sub can be moved. */
  lemma LinkExact(order: seq<int>, r: Redirect, main: int, sub: int, failing: set<int>)
    requires Distinct(order) && Known(order, r) && Forest(r) && main != sub && CanLink(order, main, sub, failing)
    ensures Forest(Linked(order, r, main, sub, failing)) <==> Resolve(r, main) != sub && AllMovable(order, r, sub, failing)
  {
    var target, m := Resolve(r, main), Linked(order, r, main, sub, failing);
    assert sub in m;
    if target == sub {
      assert m[sub] == sub;
    } else if AllMovable(order, r, sub, failing) {
      forall c | c in m ensures m[c] !in m {
        MovedAll(order, r, sub, target, failing, c);
        MovedAll(order, r, sub, target, failing, m[c]);
      }
    } else {
      LeftBehind(order, r, sub, target, failing);
    }
  }

  /** When it does, sub and whatever resolved to sub now resolve to what main resolves to; nothing else changes. */
  lemma LinkResolves(order: seq<int>, r: Redirect, main: int, sub: int, failing: set<int>, c: int)
    requires Known(order, r) && Forest(r) && main != sub && CanLink(order, main, sub, failing)
    requires Resolve(r, main) != sub && AllMovable(order, r, sub, failing)
    ensures Resolve(Linked(order, r, main, sub, failing), c)
            == if c == sub || Resolve(r, c) == sub then Resolve(r, main) else Resolve(r, c)
  {
    MovedAll(order, r, sub, Resolve(r, main), failing, c);
  }

  lemma LinkKnown(order: seq<int>, r: Redirect, main: int, sub: int, failing: set<int>)
    requires Known(order, r)
    ensures Known(order, Linked(order, r, main, sub, failing))
  {
  }

  /** Linking a comic to one that redirects to it makes it redirect to itself. */
  lemma LinkBackLoops()
    ensures Linked([1, 2], map[2 := 1], 2, 1, {}) == map[1 := 1, 2 := 1]
  {
    assert [1, 2][0] == 1 && [1, 2][1] == 2;
    assert CanLink([1, 2], 2, 1, {});
  }

  // ---- runs of links ----

  /** One request to link sub to main, with the records that cannot be written while it runs. */
  datatype Link = Link(main: int, sub: int, failing: set<int>)

  function RunLinks(order: seq<int>, r: Redirect, links: seq<Link>): Redirect {
    if links == [] then r
    else
      var n := |links| - 1;
      Linked(order, RunLinks(order, r, links[..n]), links[n].main, links[n].sub, links[n].failing)
  }

  /** A link that cannot be made, or one whose main does not redirect to sub and whose followers can all be moved. */
  predicate LinkOk(order: seq<int>, r: Redirect, l: Link) {
    !CanLink(order, l.main, l.sub, l.failing) || (Resolve(r, l.main) != l.sub && AllMovable(order, r, l.sub, l.failing))
  }

  /** Every link meets its condition in the state it finds. */
  predicate RunOk(order: seq<int>, r: Redirect, links: seq<Link>) {
    links == [] || (var n := |links| - 1; RunOk(order, r, links[..n]) && LinkOk(order, RunLinks(order, r, links[..n]), links[n]))
  }

  /** Redirects are one step deep after every link of the run. */
  ghost predicate AlwaysForest(order: seq<int>, r: Redirect, links: seq<Link>) {
    && Forest(RunLinks(order, r, links))
    && (links == [] || AlwaysForest(order, r, links[..|links| - 1]))
  }

  lemma {:induction false} RunKnown(order: seq<int>, r: Redirect, links: seq<Link>)
    requires Known(order, r)
    ensures Known(order, RunLinks(order, r, links))
  {
    if links != [] {
      var n := |links| - 1;
      RunKnown(order, r, links[..n]);
      LinkKnown(order, RunLinks(order, r, links[..n]), links[n].main, links[n].sub, links[n].failing);
    }
  }

  /** Over every sequence of links, with any mains and any failing writes, redirects stay one step deep throughout if and
      only if every link meets its condition in the state it finds. */
  lemma {:induction false} RunExact(order: seq<int>, r: Redirect, links: seq<Link>)
    requires Distinct(order) && Known(order, r) && Forest(r)
    requires forall i :: 0 <= i < |links| ==> links[i].main != links[i].sub
    ensures AlwaysForest(order, r, links) <==> RunOk(order, r, links)
  {
    if links != [] {
      var n := |links| - 1;
      var before := RunLinks(order, r, links[..n]);
      RunExact(order, r, links[..n]);
      RunKnown(order, r, links[..n]);
      if AlwaysForest(order, r, links[..n]) && CanLink(order, links[n].main, links[n].sub, links[n].failing) {
        LinkExact(order, before, links[n].main, links[n].sub, links[n].failing);
      }
    }
  }

  /** Where a comic leads after a run, told from where comics led before: every link that is made sends sub and its group
      to where its main leads. */
  function Led(order: seq<int>, r: Redirect, links: seq<Link>, c: int): int {
    if links == [] then Resolve(r, c)
    else
      var n, l := |links| - 1, links[|links| - 1];
      var was := Led(order, r, links[..n], c);
      if CanLink(order, l.main, l.sub, l.failing) && (c == l.sub || was == l.sub) then Led(order, r, links[..n], l.main) else was
  }

  /** The redirects of such a run resolve exactly like that. */
  lemma {:induction false} RunResolves(order: seq<int>, r: Redirect, links: seq<Link>, c: int)
    requires Distinct(order) && Known(order, r) && Forest(r) && RunOk(order, r, links)
    requires forall i :: 0 <= i < |links| ==> links[i].main != links[i].sub
    ensures Resolve(RunLinks(order, r, links), c) == Led(order, r, links, c)
    decreases |links|
  {
    if links != [] {
      var n, l := |links| - 1, links[|links| - 1];
      var before := RunLinks(order, r, links[..n]);
      RunResolves(order, r, links[..n], c);
      RunResolves(order, r, links[..n], l.main);
      RunKnown(order, r, links[..n]);
      RunExact(order, r, links[..n]);
      assert Forest(before);
      if CanLink(order, l.main, l.sub, l.failing) {
        LinkResolves(order, before, l.main, l.sub, l.failing, c);
      }
    }
  }

  // ---- a batch of links ----

  /** The links of one request; fails(i) are the records that cannot be written during the i-th. */
  function BatchLinks(main: int, subs: seq<int>, fails: nat -> set<int>): (r: seq<Link>)
    ensures |r| == |subs|
  {
    seq(|subs|, i requires 0 <= i < |subs| => Link(main, subs[i], fails(i)))
  }

  function LinkedAll(order: seq<int>, r: Redirect, main: int, subs: seq<int>, fails: nat -> set<int>): Redirect {
    RunLinks(order, r, BatchLinks(main, subs, fails))
  }

  lemma LinkedLast(order: seq<int>, r: Redirect, main: int, subs: seq<int>, fails: nat -> set<int>)
    requires subs != []
    ensures var n := |subs| - 1;
            LinkedAll(order, r, main, subs, fails)
            == Linked(order, LinkedAll(order, r, main, subs[..n], fails), main, subs[n], fails(n))
  {
    assert BatchLinks(main, subs, fails)[..|subs| - 1] == BatchLinks(main, subs[..|subs| - 1], fails);
  }

  /** Those of subs that are linked, or with linked false, those that are not. */
  function Linkable(order: seq<int>, main: int, subs: seq<int>, fails: nat -> set<int>, linked: bool): seq<int> {
    if subs == [] then []
    else
      var n := |subs| - 1;
      var before := Linkable(order, main, subs[..n], fails, linked);
      if CanLink(order, main, subs[n], fails(n)) == linked then before + [subs[n]] else before
  }

  /** What a batch may be asked for: main and its target are not among subs, and all followers of subs can be moved. */
  predicate BatchOk(order: seq<int>, r: Redirect, main: int, subs: seq<int>, fails: nat -> set<int>) {
    && !Has(subs, main) && !Has(subs, Resolve(r, main))
    && forall i :: 0 <= i < |subs| ==> AllMovable(order, r, subs[i], fails(i))
  }

  /** After some links of a batch every other comic has the followers it had, unless it is the common target. */
  ghost predicate Advanced(order: seq<int>, r: Redirect, after: Redirect, main: int, linked: seq<int>) {
    && Forest(after) && Known(order, after)
    && forall c :: Resolve(after, c) == if Has(linked, c) || Has(linked, Resolve(r, c)) then Resolve(r, main) else Resolve(r, c)
  }

  lemma FollowersLeft(order: seq<int>, r: Redirect, after: Redirect, main: int, linked: seq<int>, sub: int, failing: set<int>)
    requires Forest(r) && Advanced(order, r, after, main, linked) && sub != Resolve(r, main)
    requires AllMovable(order, r, sub, failing)
    ensures AllMovable(order, after, sub, failing)
  {
    forall x | x in after && after[x] == sub ensures x in r && r[x] == sub {
      assert Resolve(after, x) == sub;
      assert Resolve(r, x) == sub;
    }
    PointingFewer(order, r, after, sub);
    PointingMeans(order, r, sub);
    PointingMeans(order, after, sub);
    var now := Pointing(order, after, sub);
    forall i | 0 <= i < |now| ensures now[i] !in failing {
      assert Has(now, now[i]);
      var j :| 0 <= j < |Pointing(order, r, sub)| && Pointing(order, r, sub)[j] == now[i];
    }
  }

  lemma {:induction false} PointingFewer(order: seq<int>, r: Redirect, q: Redirect, c: int)
    requires forall x :: x in q && q[x] == c ==> x in r && r[x] == c
    ensures |Pointing(order, q, c)| <= |Pointing(order, r, c)|
  {
    if order != [] { PointingFewer(order[1..], r, q, c); }
  }

  /** A permitted batch keeps the forest; the linked comics and their groups resolve to what main resolves to and all
      others to what they did. */
  lemma {:induction false} BatchResolves(order: seq<int>, r: Redirect, main: int, subs: seq<int>, fails: nat -> set<int>)
    requires Distinct(order) && Known(order, r) && Forest(r) && BatchOk(order, r, main, subs, fails)
    ensures Advanced(order, r, LinkedAll(order, r, main, subs, fails), main, Linkable(order, main, subs, fails, true))
    decreases |subs|
  {
    if subs != [] {
      var n := |subs| - 1;
      var before, sub := subs[..n], subs[n];
      HasLast(subs);
      assert forall i :: 0 <= i < |before| ==> before[i] == subs[i];
      BatchResolves(order, r, main, before, fails);
      LinkedLast(order, r, main, subs, fails);
      var after := LinkedAll(order, r, main, before, fails);
      if CanLink(order, main, sub, fails(n)) {
        BatchStep(order, r, after, main, Linkable(order, main, before, fails, true), sub, fails(n));
      }
    }
  }

  /** A permitted batch is a run in which every link meets its condition. */
  lemma {:induction false} BatchRunOk(order: seq<int>, r: Redirect, main: int, subs: seq<int>, fails: nat -> set<int>)
    requires Distinct(order) && Known(order, r) && Forest(r) && BatchOk(order, r, main, subs, fails)
    ensures RunOk(order, r, BatchLinks(main, subs, fails))
    decreases |subs|
  {
    if subs != [] {
      var n := |subs| - 1;
      var before := subs[..n];
      HasLast(subs);
      assert forall i :: 0 <= i < |before| ==> before[i] == subs[i];
      BatchRunOk(order, r, main, before, fails);
      BatchResolves(order, r, main, before, fails);
      assert BatchLinks(main, subs, fails)[..n] == BatchLinks(main, before, fails);
      FollowersLeft(order, r, LinkedAll(order, r, main, before, fails), main, Linkable(order, main, before, fails, true),
                    subs[n], fails(n));
    }
  }

  lemma BatchStep(order: seq<int>, r: Redirect, after: Redirect, main: int, linked: seq<int>, sub: int, failing: set<int>)
    requires Distinct(order) && Known(order, r) && Forest(r) && Advanced(order, r, after, main, linked)
    requires CanLink(order, main, sub, failing) && main != sub && Resolve(r, main) != sub
    requires AllMovable(order, r, sub, failing)
    ensures Advanced(order, r, Linked(order, after, main, sub, failing), main, linked + [sub])
  {
    var next := Linked(order, after, main, sub, failing);
    FollowersLeft(order, r, after, main, linked, sub, failing);
    LinkExact(order, after, main, sub, failing);
    LinkKnown(order, after, main, sub, failing);
    HasLast(linked + [sub]);
    assert (linked + [sub])[..|linked|] == linked;
    forall c ensures Resolve(next, c)
        == if Has(linked + [sub], c) || Has(linked + [sub], Resolve(r, c)) then Resolve(r, main) else Resolve(r, c) {
      LinkResolves(order, after, main, sub, failing, c);
    }
  }

  // ---- the handlers ----

  lemma RepointedNext(r: Redirect, before: Redirect, chain: seq<int>, i: nat, target: int, failing: set<int>)
    requires i < |chain| && chain[i] in r && before == Repointed(r, chain[..i], target, failing)
    ensures Repointed(r, chain[..i + 1], target, failing)
            == if chain[i] in failing then before else before[chain[i] := target]
  {
    HasLast(chain[..i + 1]);
    assert chain[..i + 1][..i] == chain[..i];
  }

  lemma ChainRedirects(order: seq<int>, r: Redirect, sub: int, i: nat)
    requires i < |Top(Pointing(order, r, sub), ChainLimit)|
    ensures Top(Pointing(order, r, sub), ChainLimit)[i] in r
  {
    PointingMeans(order, r, sub);
    assert Has(Pointing(order, r, sub), Top(Pointing(order, r, sub), ChainLimit)[i]);
  }

  /** The list mentions a before b. */
  ghost predicate Earlier(list: seq<int>, a: int, b: int) {
    exists p :: 0 <= p < |list| && list[p] == a && !Has(list[..p], b)
  }

  /** The elements of s stand in the order in which list first mentions them. */
  ghost predicate AsMentioned(s: seq<int>, list: seq<int>) {
    forall i, j :: 0 <= i < j < |s| ==> Earlier(list, s[i], s[j])
  }

  lemma EarlierMore(list: seq<int>, x: int, a: int, b: int)
    requires Earlier(list, a, b) || (Has(list, a) && !Has(list, b))
    ensures Earlier(list + [x], a, b)
  {
    var p :| 0 <= p < |list| && list[p] == a && (!Has(list[..p], b) || !Has(list, b));
    assert list[..p] + list[p..] == list;
    HasConcat(list[..p], list[p..]);
    assert (list + [x])[p] == a && (list + [x])[..p] == list[..p];
  }

  lemma MentionedNext(s: seq<int>, list: seq<int>, x: int)
    requires AsMentioned(s, list) && forall y :: Has(s, y) <==> Has(list, y)
    ensures AsMentioned(s, list + [x])
    ensures !Has(s, x) ==> AsMentioned(s + [x], list + [x])
  {
    forall i, j | 0 <= i < j < |s| ensures Earlier(list + [x], s[i], s[j]) { EarlierMore(list, x, s[i], s[j]); }
    if !Has(s, x) {
      forall i | 0 <= i < |s| ensures Earlier(list + [x], s[i], x) {
        assert Has(s, s[i]);
        EarlierMore(list, x, s[i], x);
      }
    }
  }

  class Library {
    const order: seq<int>
    var redirect: Redirect

    /** Redirects of known comics, one step deep. */
    ghost predicate Valid()
      reads this
    {
      Distinct(order) && Known(order, redirect) && Forest(redirect)
    }

    constructor (order: seq<int>, redirect: Redirect)
      ensures this.order == order && this.redirect == redirect
    {
      this.order, this.redirect := order, redirect;
    }

    /** Rewrites the records of chain one after the other; a record that cannot be written stays. */
    method PropagateRedirectChain(sub: int, target: int, failing: set<int>)
      modifies this`redirect
      ensures redirect == Repointed(old(redirect), Top(Pointing(order, old(redirect), sub), ChainLimit), target, failing)
    {
      var chain := Top(Pointing(order, redirect, sub), ChainLimit);
      for i := 0 to |chain|
        invariant redirect == Repointed(old(redirect), chain[..i], target, failing)
      {
        ChainRedirects(order, old(redirect), sub, i);
        RepointedNext(old(redirect), redirect, chain, i, target, failing);
        if chain[i] !in failing { redirect := redirect[chain[i] := target]; }
      }
      assert chain[..|chain|] == chain;
    }

    /** Makes the link if both records can be read and written; a valid library stays valid exactly if the link meets
        its condition. */
    method LinkSingleComic(main: int, sub: int, failing: set<int>) returns (ok: bool)
      modifies this`redirect
      ensures ok == CanLink(order, main, sub, failing)
      ensures redirect == Linked(order, old(redirect), main, sub, failing)
      ensures old(Valid()) && main != sub ==> (Valid() <==> LinkOk(order, old(redirect), Link(main, sub, failing)))
    {
      ok := CanLink(order, main, sub, failing);
      if ok {
        var target := if main in redirect then redirect[main] else main;
        redirect := redirect[sub := target];
        PropagateRedirectChain(sub, target, failing);
      }
      if old(Valid()) && main != sub {
        LinkKnown(order, old(redirect), main, sub, failing);
        if ok { LinkExact(order, old(redirect), main, sub, failing); }
      }
    }

    /** The subs without repetition, in the order of first mention. */
    method Deduplicate(main: int, subs: seq<int>) returns (valid: bool, deduped: seq<int>)
      ensures valid <==> forall i :: 0 <= i < |subs| ==> subs[i] > 0 && subs[i] != main
      ensures valid ==> Distinct(deduped) && forall x :: Has(deduped, x) <==> Has(subs, x)
      ensures valid ==> AsMentioned(deduped, subs)
    {
      valid, deduped := true, [];
      for i := 0 to |subs|
        invariant forall k :: 0 <= k < i ==> subs[k] > 0 && subs[k] != main
        invariant Distinct(deduped) && forall x :: Has(deduped, x) <==> Has(subs[..i], x)
        invariant AsMentioned(deduped, subs[..i])
      {
        if subs[i] <= 0 || subs[i] == main { valid := false; return; }
        MentionedNext(deduped, subs[..i], subs[i]);
        assert subs[..i + 1] == subs[..i] + [subs[i]];
        HasLast(subs[..i + 1]); HasLast(deduped + [subs[i]]);
        assert subs[..i + 1][..i] == subs[..i] && (deduped + [subs[i]])[..|deduped|] == deduped;
        if !Has(deduped, subs[i]) { deduped := deduped + [subs[i]]; }
      }
      assert subs[..|subs|] == subs;
    }

    /** Links all subs to main. An invalid request changes nothing; a link that fails does not stop the others. */
    method LinkComics(main: int, subs: seq<int>, fails: nat -> set<int>) returns (valid: bool, deduped: seq<int>, failed: seq<int>)
      modifies this`redirect
      ensures valid <==> main > 0 && subs != [] && forall i :: 0 <= i < |subs| ==> subs[i] > 0 && subs[i] != main
      ensures !valid ==> redirect == old(redirect)
      ensures valid ==> Distinct(deduped) && forall x :: Has(deduped, x) <==> Has(subs, x)
      ensures valid ==> AsMentioned(deduped, subs)
      ensures valid ==> redirect == LinkedAll(order, old(redirect), main, deduped, fails)
      ensures valid ==> failed == Linkable(order, main, deduped, fails, false)
      ensures old(Valid()) && (!valid || RunOk(order, old(redirect), BatchLinks(main, deduped, fails))) ==> Valid()
    {
      valid, deduped, failed := false, [], [];
      if main <= 0 || subs == [] { return; }
      valid, deduped := Deduplicate(main, subs);
      if !valid { return; }
      for i := 0 to |deduped|
        invariant redirect == LinkedAll(order, old(redirect), main, deduped[..i], fails)
        invariant failed == Linkable(order, main, deduped[..i], fails, false)
      {
        assert deduped[..i + 1][..i] == deduped[..i];
        LinkedLast(order, old(redirect), main, deduped[..i + 1], fails);
        var ok := LinkSingleComic(main, deduped[i], fails(i));
        if !ok { failed := failed + [deduped[i]]; }
      }
      assert deduped[..|deduped|] == deduped;
      if old(Valid()) && RunOk(order, old(redirect), BatchLinks(main, deduped, fails)) {
        OtherMains(main, subs, deduped);
        RunExact(order, old(redirect), BatchLinks(main, deduped, fails));
        RunKnown(order, old(redirect), BatchLinks(main, deduped, fails));
      }
    }
  }

  lemma OtherMains(main: int, subs: seq<int>, deduped: seq<int>)
    requires forall i :: 0 <= i < |subs| ==> subs[i] != main
    requires forall x :: Has(deduped, x) <==> Has(subs, x)
    ensures forall i :: 0 <= i < |deduped| ==> deduped[i] != main
  {
    forall i | 0 <= i < |deduped| ensures deduped[i] != main {
      assert Has(deduped, deduped[i]);
    }
  }
}
