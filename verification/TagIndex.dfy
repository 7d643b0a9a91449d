/** Tags of comics and the index that counts them. The index is maintained step by step by the editing requests and
    can be rebuilt from all comics at once; both must agree. */
module TagIndex {
  import Decimal
  import Text

  datatype Tag = Tag(kind: string, id: int, name: string, url: string)
  datatype Comic = Comic(cid: int, tags: seq<Tag>)

  const FirstFreeId := 1000000000
  const MaxBatch := 500

  function Value(t: Tag): string {
    if t.id > 0 then Decimal.Show(t.id) else t.name
  }

  /** What the handlers compare tags by. The index, in contrast, distinguishes all four fields. */
  function Key(t: Tag): string {
    t.kind + ":" + Value(t)
  }

  function Keys(tags: seq<Tag>): set<string> {
    set t | t in tags :: Key(t)
  }

  predicate DistinctKeys(tags: seq<Tag>) {
    forall i, j :: 0 <= i < j < |tags| ==> Key(tags[i]) != Key(tags[j])
  }

  /** All tags of all comics, one after the other. */
  function Flat(comics: seq<Comic>): seq<Tag> {
    if comics == [] then [] else Flat(comics[..|comics| - 1]) + comics[|comics| - 1].tags
  }

  /** The index a full count of the comics would give. */
  function Tally(comics: seq<Comic>): map<Tag, int> {
    map t | t in Flat(comics) :: multiset(Flat(comics))[t]
  }

  /** index counts m exactly and has no entry without an occurrence. */
  ghost predicate Counts(index: map<Tag, int>, m: multiset<Tag>) {
    && (forall t :: t in index <==> t in m)
    && (forall t | t in index :: index[t] == m[t])
  }

  lemma CountsIsTally(index: map<Tag, int>, comics: seq<Comic>)
    ensures Counts(index, multiset(Flat(comics))) <==> index == Tally(comics)
  {
    var flat := Flat(comics);
    assert forall t :: t in flat <==> t in multiset(flat);
    if Counts(index, multiset(flat)) {
      assert index.Keys == Tally(comics).Keys;
    }
  }

  // ---- the index ----

  /** Deleting one entry of that kind and id without a positive count; the database chooses which. */
  ghost predicate OneDeleted(index: map<Tag, int>, kind: string, id: int, after: map<Tag, int>) {
    || (after == index && forall v | v in index :: !(v.kind == kind && v.id == id && index[v] <= 0))
    || (exists v :: v in index && v.kind == kind && v.id == id && index[v] <= 0 && after == index - {v})
  }

  /** One incremental update by d: an upsert for additions; for removals a plain update, then the clean-up. */
  ghost predicate Bumped(index: map<Tag, int>, t: Tag, d: int, after: map<Tag, int>) {
    if d > 0 then after == index[t := (if t in index then index[t] else 0) + d]
    else if d < 0 then OneDeleted(if t in index then index[t := index[t] + d] else index, t.kind, t.id, after)
    else after == index
  }

  /** Counting upwards keeps the index exact, whether the entry is new or not. */
  lemma BumpUp(index: map<Tag, int>, m: multiset<Tag>, t: Tag, d: nat, after: map<Tag, int>)
    requires Counts(index, m) && Bumped(index, t, d, after)
    ensures Counts(after, m[t := m[t] + d])
  {
  }

  /** Counting downwards keeps it exact: although the clean-up looks at kind and id only, nothing but the entry that
      just reached zero can match. */
  lemma BumpDown(index: map<Tag, int>, m: multiset<Tag>, t: Tag, after: map<Tag, int>)
    requires Counts(index, m) && t in m && Bumped(index, t, -1, after)
    ensures Counts(after, m - multiset{t})
  {
    var middle := index[t := index[t] - 1];
    assert forall v | v in middle && v != t :: middle[v] == m[v] > 0;
    assert middle[t] == m[t] - 1;
  }

  /** Upserting the full count of every occurring tag; entries of other tags stay. */
  function Aggregated(index: map<Tag, int>, comics: seq<Comic>): map<Tag, int> {
    index + Tally(comics)
  }

  /** A full aggregation makes the index exact if and only if the index has no entry for a tag that is gone. */
  lemma AggregateExact(index: map<Tag, int>, comics: seq<Comic>)
    ensures Aggregated(index, comics) == Tally(comics) <==> forall t | t in index :: t in Flat(comics)
  {
    if forall t | t in index :: t in Flat(comics) {
      assert Aggregated(index, comics).Keys == Tally(comics).Keys;
    } else {
      var t :| t in index && t !in Flat(comics);
      assert t in Aggregated(index, comics) && t !in Tally(comics);
    }
  }

  // ---- editing the tags of one comic ----

  function Kept(tags: seq<Tag>, keys: set<string>): seq<Tag> {
    if tags == [] then []
    else
      var t := tags[|tags| - 1];
      Kept(tags[..|tags| - 1], keys) + (if Key(t) in keys then [] else [t])
  }

  function Dropped(tags: seq<Tag>, keys: set<string>): seq<Tag> {
    if tags == [] then []
    else
      var t := tags[|tags| - 1];
      Dropped(tags[..|tags| - 1], keys) + (if Key(t) in keys then [t] else [])
  }

  /** Those of added that are appended to tags one by one, because their key is not yet there. */
  function NewOnes(tags: seq<Tag>, added: seq<Tag>): seq<Tag>
    decreases |added|
  {
    if added == [] then []
    else if Key(added[0]) in Keys(tags) then NewOnes(tags, added[1..])
    else [added[0]] + NewOnes(tags + [added[0]], added[1..])
  }

  function Edited(tags: seq<Tag>, added: seq<Tag>, removed: seq<Tag>): seq<Tag> {
    Kept(tags, Keys(removed)) + NewOnes(Kept(tags, Keys(removed)), added)
  }

  lemma {:induction false} KeptMembers(tags: seq<Tag>, keys: set<string>)
    ensures forall t :: t in Kept(tags, keys) <==> t in tags && Key(t) !in keys
  {
    if tags != [] { KeptMembers(tags[..|tags| - 1], keys); }
  }

  lemma KeptLast(tags: seq<Tag>, t: Tag, keys: set<string>)
    ensures Kept(tags + [t], keys) == Kept(tags, keys) + (if Key(t) in keys then [] else [t])
    ensures Dropped(tags + [t], keys) == Dropped(tags, keys) + (if Key(t) in keys then [t] else [])
  {
    assert (tags + [t])[..|tags|] == tags;
  }

  lemma Without0(tags: seq<Tag>)
    ensures tags + [] == tags
  {
  }

  lemma {:induction false} KeptAndDropped(tags: seq<Tag>, keys: set<string>)
    ensures multiset(tags) == multiset(Kept(tags, keys)) + multiset(Dropped(tags, keys))
  {
    if tags != [] {
      var before, t := tags[..|tags| - 1], tags[|tags| - 1];
      assert tags == before + [t];
      KeptAndDropped(before, keys);
      KeptLast(before, t, keys);
      Without0(Kept(before, keys));
      Without0(Dropped(before, keys));
    }
  }

  lemma {:induction false} NoneDropped(tags: seq<Tag>, keys: set<string>)
    requires Dropped(tags, keys) == []
    ensures Kept(tags, keys) == tags
  {
    if tags != [] {
      var before, t := tags[..|tags| - 1], tags[|tags| - 1];
      assert tags == before + [t];
      KeptLast(before, t, keys);
      NoneDropped(before, keys);
    }
  }

  lemma {:induction false} KeptDistinct(tags: seq<Tag>, keys: set<string>)
    requires DistinctKeys(tags)
    ensures DistinctKeys(Kept(tags, keys))
  {
    if tags != [] {
      var before := tags[..|tags| - 1];
      KeptDistinct(before, keys);
      KeptMembers(before, keys);
      forall i | 0 <= i < |Kept(before, keys)| ensures Key(Kept(before, keys)[i]) != Key(tags[|tags| - 1]) {
        assert Kept(before, keys)[i] in before;
      }
    }
  }

  /** Appending the first new tag and then the others. */
  lemma NewOnesStep(tags: seq<Tag>, added: seq<Tag>)
    requires added != []
    ensures var now := if Key(added[0]) in Keys(tags) then tags else tags + [added[0]];
            && tags + NewOnes(tags, added) == now + NewOnes(now, added[1..])
            && Keys(now) == Keys(tags) + {Key(added[0])}
  {
    if Key(added[0]) !in Keys(tags) {
      KeysOfLast(tags, added[0]);
    }
  }

  lemma {:induction false} NewOnesKeys(tags: seq<Tag>, added: seq<Tag>)
    ensures Keys(tags + NewOnes(tags, added)) == Keys(tags) + Keys(added)
    decreases |added|
  {
    if added == [] {
      assert tags + NewOnes(tags, added) == tags;
    } else {
      NewOnesStep(tags, added);
      NewOnesKeys(if Key(added[0]) in Keys(tags) then tags else tags + [added[0]], added[1..]);
      KeysOfHead(added);
      Regroup(Keys(tags), Key(added[0]), Keys(added[1..]));
    }
  }

  lemma Regroup(a: set<string>, k: string, b: set<string>)
    ensures a + ({k} + b) == (a + {k}) + b
  {
  }

  lemma KeysOfLast(tags: seq<Tag>, t: Tag)
    ensures Keys(tags + [t]) == Keys(tags) + {Key(t)}
  {
    KeysOfSum(tags, [t]);
    KeysOfHead([t]);
  }

  lemma KeysOfHead(tags: seq<Tag>)
    requires tags != []
    ensures Keys(tags) == {Key(tags[0])} + Keys(tags[1..])
  {
    assert tags == [tags[0]] + tags[1..];
    KeysOfSum([tags[0]], tags[1..]);
  }

  lemma AppendedDistinct(tags: seq<Tag>, t: Tag)
    requires DistinctKeys(tags) && Key(t) !in Keys(tags)
    ensures DistinctKeys(tags + [t])
  {
    assert forall i :: 0 <= i < |tags| ==> Key(tags[i]) in Keys(tags);
  }

  lemma {:induction false} NewOnesDistinct(tags: seq<Tag>, added: seq<Tag>)
    requires DistinctKeys(tags)
    ensures DistinctKeys(tags + NewOnes(tags, added))
    decreases |added|
  {
    if added == [] {
      Without0(tags);
    } else {
      NewOnesStep(tags, added);
      if Key(added[0]) in Keys(tags) {
        NewOnesDistinct(tags, added[1..]);
      } else {
        AppendedDistinct(tags, added[0]);
        NewOnesDistinct(tags + [added[0]], added[1..]);
      }
    }
  }

  lemma KeysOfSum(a: seq<Tag>, b: seq<Tag>)
    ensures Keys(a + b) == Keys(a) + Keys(b)
  {
    forall k | k in Keys(a) + Keys(b) ensures k in Keys(a + b) {
      var t :| (t in a || t in b) && Key(t) == k;
      assert t in a + b;
    }
  }

  /** After an edit a key is present exactly if it was added, or was there before and not removed. */
  lemma EditMeans(tags: seq<Tag>, added: seq<Tag>, removed: seq<Tag>)
    ensures Keys(Edited(tags, added, removed)) == (Keys(tags) - Keys(removed)) + Keys(added)
    ensures DistinctKeys(tags) ==> DistinctKeys(Edited(tags, added, removed))
  {
    var kept := Kept(tags, Keys(removed));
    KeptMembers(tags, Keys(removed));
    NewOnesKeys(kept, added);
    if DistinctKeys(tags) {
      KeptDistinct(tags, Keys(removed));
      NewOnesDistinct(kept, added);
    }
    forall k | k in Keys(tags) - Keys(removed) ensures k in Keys(kept) {
      var t :| t in tags && Key(t) == k;
      assert t in kept;
    }
  }

  // ---- all comics ----

  /** The position of a comic, or the number of comics if there is none. */
  function Find(comics: seq<Comic>, cid: int): (i: nat)
    ensures i <= |comics| && (i < |comics| ==> comics[i].cid == cid)
    ensures forall j :: 0 <= j < i ==> comics[j].cid != cid
  {
    if comics == [] || comics[0].cid == cid then 0 else 1 + Find(comics[1..], cid)
  }

  function Retagged(comics: seq<Comic>, i: nat, tags: seq<Tag>): seq<Comic>
    requires i < |comics|
  {
    comics[i := comics[i].(tags := tags)]
  }

  /** Occurrences of t. */
  function Occurs(tags: seq<Tag>, t: Tag): nat {
    if tags == [] then 0 else Occurs(tags[..|tags| - 1], t) + (if tags[|tags| - 1] == t then 1 else 0)
  }

  lemma {:induction false} OccursIs(tags: seq<Tag>, t: Tag)
    ensures Occurs(tags, t) == multiset(tags)[t]
  {
    if tags != [] {
      OccursIs(tags[..|tags| - 1], t);
      assert tags == tags[..|tags| - 1] + [tags[|tags| - 1]];
    }
  }

  lemma {:induction false} OccursInSum(a: seq<Tag>, b: seq<Tag>, t: Tag)
    ensures Occurs(a + b, t) == Occurs(a, t) + Occurs(b, t)
    decreases |b|
  {
    if b == [] {
      assert a + b == a;
    } else {
      OccursInSum(a, b[..|b| - 1], t);
      assert (a + b)[..|a + b| - 1] == a + b[..|b| - 1];
    }
  }

  lemma {:induction false} RetaggedOccurs(comics: seq<Comic>, i: nat, tags: seq<Tag>, t: Tag)
    requires i < |comics|
    ensures Occurs(Flat(Retagged(comics, i, tags)), t) + Occurs(comics[i].tags, t) == Occurs(Flat(comics), t) + Occurs(tags, t)
    decreases |comics|
  {
    var after, last := Retagged(comics, i, tags), |comics| - 1;
    OccursInSum(Flat(comics[..last]), comics[last].tags, t);
    OccursInSum(Flat(after[..last]), after[last].tags, t);
    if i == last {
      assert after[..last] == comics[..last];
    } else {
      RetaggedOccurs(comics[..last], i, tags, t);
      assert after[..last] == Retagged(comics[..last], i, tags);
    }
  }

  lemma Together(a: seq<Tag>, b: seq<Tag>)
    ensures multiset(a + b) == multiset(a) + multiset(b)
  {
  }

  function MaxId(tags: seq<Tag>): int {
    if tags == [] then 0
    else if |tags| == 1 then tags[0].id
    else var m := MaxId(tags[1..]); if tags[0].id > m then tags[0].id else m
  }

  function NextId(comics: seq<Comic>): int {
    if MaxId(Flat(comics)) + 1 > FirstFreeId then MaxId(Flat(comics)) + 1 else FirstFreeId
  }

  /** Tags without an id get consecutive ones from next on. */
  function Assigned(added: seq<Tag>, next: int): (r: seq<Tag>)
    ensures |r| == |added|
  {
    if added == [] then []
    else if added[0].id == 0 then [added[0].(id := next)] + Assigned(added[1..], next + 1)
    else [added[0]] + Assigned(added[1..], next)
  }

  lemma {:induction false} MaxIdBounds(tags: seq<Tag>)
    ensures forall t :: t in tags ==> t.id <= MaxId(tags)
  {
    if |tags| > 1 {
      MaxIdBounds(tags[1..]);
    }
  }

  lemma {:induction false} AssignedIds(added: seq<Tag>, next: int, i: nat)
    requires i < |added|
    ensures added[i].id == 0 ==> Assigned(added, next)[i].id >= next
    ensures added[i].id != 0 ==> Assigned(added, next)[i] == added[i]
    decreases |added|
  {
    if i > 0 { AssignedIds(added[1..], if added[0].id == 0 then next + 1 else next, i - 1); }
  }

  lemma {:induction false} AssignedAscend(added: seq<Tag>, next: int, i: nat, j: nat)
    requires i < j < |added| && added[i].id == 0 && added[j].id == 0
    ensures Assigned(added, next)[i].id < Assigned(added, next)[j].id
    decreases |added|
  {
    if i == 0 {
      AssignedIds(added[1..], next + 1, j - 1);
    } else {
      AssignedAscend(added[1..], if added[0].id == 0 then next + 1 else next, i - 1, j - 1);
    }
  }

  /** Assigned ids are new to the whole collection, different from each other and never below the reserved range. */
  lemma AssignedFresh(comics: seq<Comic>, added: seq<Tag>)
    ensures var r := Assigned(added, NextId(comics));
            && (forall i :: 0 <= i < |added| && added[i].id == 0 ==>
                  r[i].id >= FirstFreeId && forall t :: t in Flat(comics) ==> t.id < r[i].id)
            && (forall i, j :: 0 <= i < j < |added| && added[i].id == 0 && added[j].id == 0 ==> r[i].id != r[j].id)
            && (forall i :: 0 <= i < |added| && added[i].id != 0 ==> r[i] == added[i])
  {
    MaxIdBounds(Flat(comics));
    forall i | 0 <= i < |added|
      ensures added[i].id == 0 ==> Assigned(added, NextId(comics))[i].id >= NextId(comics)
      ensures added[i].id != 0 ==> Assigned(added, NextId(comics))[i] == added[i]
    {
      AssignedIds(added, NextId(comics), i);
    }
    forall i, j | 0 <= i < j < |added| && added[i].id == 0 && added[j].id == 0
      ensures Assigned(added, NextId(comics))[i].id < Assigned(added, NextId(comics))[j].id
    {
      AssignedAscend(added, NextId(comics), i, j);
    }
  }

  /** An edit changes the occurrences by the tags it appended and the tags it dropped. */
  lemma EditBalance(comics: seq<Comic>, i: nat, kept: seq<Tag>, dropped: seq<Tag>, newOnes: seq<Tag>)
    requires i < |comics| && multiset(comics[i].tags) == multiset(kept) + multiset(dropped)
    ensures multiset(dropped) <= multiset(Flat(comics)) + multiset(newOnes)
    ensures multiset(Flat(Retagged(comics, i, kept + newOnes)))
            == multiset(Flat(comics)) + multiset(newOnes) - multiset(dropped)
  {
    var after := Flat(Retagged(comics, i, kept + newOnes));
    forall t ensures multiset(after)[t] + multiset(dropped)[t] == multiset(Flat(comics))[t] + multiset(newOnes)[t] {
      RetaggedOccurs(comics, i, kept + newOnes, t);
      OccursInSum(kept, newOnes, t);
      OccursIs(kept, t); OccursIs(dropped, t); OccursIs(newOnes, t);
      OccursIs(comics[i].tags, t); OccursIs(after, t); OccursIs(Flat(comics), t);
    }
    Balanced(multiset(after), multiset(dropped), multiset(Flat(comics)), multiset(newOnes));
  }

  lemma Balanced(after: multiset<Tag>, dropped: multiset<Tag>, before: multiset<Tag>, newOnes: multiset<Tag>)
    requires forall t :: after[t] + dropped[t] == before[t] + newOnes[t]
    ensures dropped <= before + newOnes && after == before + newOnes - dropped
  {
  }

  lemma NothingEdited(comics: seq<Comic>, i: nat, added: seq<Tag>, removed: seq<Tag>)
    requires i < |comics| && Dropped(comics[i].tags, Keys(removed)) == []
    requires NewOnes(Kept(comics[i].tags, Keys(removed)), added) == []
    ensures Retagged(comics, i, Edited(comics[i].tags, added, removed)) == comics
  {
    NoneDropped(comics[i].tags, Keys(removed));
    assert Edited(comics[i].tags, added, removed) == comics[i].tags;
  }

  lemma RetaggedKeepsKeys(comics: seq<Comic>, i: nat, tags: seq<Tag>)
    requires i < |comics| && WellTagged(comics) && DistinctKeys(tags)
    ensures WellTagged(Retagged(comics, i, tags))
  {
  }

  // ---- adding one tag to many comics ----

  /** The comics after the given cids were visited, and how many of them were changed. The visits at the positions in
      refused fail: the lock, the read or the write. */
  function Batch(comics: seq<Comic>, cids: seq<int>, tag: Tag, refused: set<nat>): (r: (seq<Comic>, nat))
    ensures |r.0| == |comics| && forall k :: 0 <= k < |comics| ==> r.0[k].cid == comics[k].cid
    decreases |cids|
  {
    if cids == [] then (comics, 0)
    else
      var last := |cids| - 1;
      var (before, n) := Batch(comics, cids[..last], tag, refused);
      var i := Find(before, cids[last]);
      if last in refused || i == |before| || Key(tag) in Keys(before[i].tags) then (before, n)
      else (Retagged(before, i, before[i].tags + [tag]), n + 1)
  }

  /** Every change adds one occurrence of the tag and nothing else changes. */
  lemma {:induction false} BatchCounts(comics: seq<Comic>, cids: seq<int>, tag: Tag, refused: set<nat>)
    ensures var r := Batch(comics, cids, tag, refused);
            multiset(Flat(r.0)) == More(multiset(Flat(comics)), tag, r.1)
    decreases |cids|
  {
    if cids != [] {
      var last := |cids| - 1;
      var before := Batch(comics, cids[..last], tag, refused).0;
      BatchCounts(comics, cids[..last], tag, refused);
      var i := Find(before, cids[last]);
      if i < |before| {
        OneMore(before, i, tag);
      }
    }
  }

  function More(m: multiset<Tag>, t: Tag, n: nat): multiset<Tag> { m[t := m[t] + n] }

  lemma OneMore(comics: seq<Comic>, i: nat, t: Tag)
    requires i < |comics|
    ensures multiset(Flat(Retagged(comics, i, comics[i].tags + [t]))) == multiset(Flat(comics)) + multiset{t}
  {
    assert multiset([t]) == multiset{t};
    assert multiset(comics[i].tags) == multiset(comics[i].tags) + multiset([]);
    EditBalance(comics, i, comics[i].tags, [], [t]);
  }

  ghost predicate Visited(cid: int, cids: seq<int>, refused: set<nat>) {
    exists j :: 0 <= j < |cids| && j !in refused && cids[j] == cid
  }

  lemma {:induction false} FindSame(a: seq<Comic>, b: seq<Comic>, cid: int)
    requires |a| == |b| && forall k :: 0 <= k < |a| ==> a[k].cid == b[k].cid
    ensures Find(a, cid) == Find(b, cid)
  {
    if a != [] { FindSame(a[1..], b[1..], cid); }
  }

  /** A batch adds the tag once to every comic that some visit reaches and that lacks it, however often the comic is
      named, and leaves the others alone. A comic behind another one with its cid is not reached. */
  lemma {:induction false} BatchMeans(comics: seq<Comic>, cids: seq<int>, tag: Tag, refused: set<nat>, k: nat)
    requires k < |comics|
    ensures var reached := Find(comics, comics[k].cid) == k && Visited(comics[k].cid, cids, refused);
            Batch(comics, cids, tag, refused).0[k].tags
            == comics[k].tags + (if reached && Key(tag) !in Keys(comics[k].tags) then [tag] else [])
    decreases |cids|
  {
    if cids != [] {
      var last := |cids| - 1;
      var before := Batch(comics, cids[..last], tag, refused).0;
      BatchMeans(comics, cids[..last], tag, refused, k);
      VisitedNext(comics[k].cid, cids, refused);
      KeysOfSum(comics[k].tags, [tag]);
      FindSame(before, comics, cids[last]);
    }
  }

  lemma VisitedNext(cid: int, cids: seq<int>, refused: set<nat>)
    requires cids != []
    ensures var last := |cids| - 1;
            Visited(cid, cids, refused) <==> Visited(cid, cids[..last], refused) || (last !in refused && cids[last] == cid)
  {
    var last := |cids| - 1;
    if Visited(cid, cids[..last], refused) {
      var j :| 0 <= j < last && j !in refused && cids[..last][j] == cid;
      assert cids[j] == cid;
    }
    if Visited(cid, cids, refused) {
      var j :| 0 <= j < |cids| && j !in refused && cids[j] == cid;
      if j < last { assert cids[..last][j] == cid; }
    }
  }

  /** No comic has two tags with the same key. */
  predicate WellTagged(comics: seq<Comic>) {
    forall k :: 0 <= k < |comics| ==> DistinctKeys(comics[k].tags)
  }

  lemma BatchKeepsKeys(comics: seq<Comic>, cids: seq<int>, tag: Tag, refused: set<nat>)
    requires WellTagged(comics)
    ensures WellTagged(Batch(comics, cids, tag, refused).0)
  {
    var after := Batch(comics, cids, tag, refused).0;
    forall k | 0 <= k < |after| ensures DistinctKeys(after[k].tags) {
      BatchMeans(comics, cids, tag, refused, k);
      var tags := comics[k].tags;
      assert forall i :: 0 <= i < |tags| ==> Key(tags[i]) in Keys(tags);
    }
  }

  /** With distinct keys a tag occurs in a comic at most once, so its count is the number of comics that carry it. */
  lemma {:induction false} CountIsComics(comics: seq<Comic>, t: Tag)
    requires WellTagged(comics)
    ensures multiset(Flat(comics))[t] == |Carriers(comics, t)|
    decreases |comics|
  {
    if comics == [] {
      assert Carriers(comics, t) == {};
    } else {
      var last := |comics| - 1;
      CountIsComics(comics[..last], t);
      OnceInComic(comics[last].tags, t);
      Together(Flat(comics[..last]), comics[last].tags);
      NextCarrier(comics, t);
    }
  }

  lemma NextCarrier(comics: seq<Comic>, t: Tag)
    requires comics != []
    ensures var last := |comics| - 1;
            |Carriers(comics, t)| == |Carriers(comics[..last], t)| + (if t in comics[last].tags then 1 else 0)
  {
    var last := |comics| - 1;
    assert Carriers(comics, t) == Carriers(comics[..last], t) + (if t in comics[last].tags then {last} else {});
  }

  ghost function Carriers(comics: seq<Comic>, t: Tag): set<int> {
    set k | 0 <= k < |comics| && t in comics[k].tags
  }

  lemma {:induction false} OnceInComic(tags: seq<Tag>, t: Tag)
    requires DistinctKeys(tags)
    ensures multiset(tags)[t] == if t in tags then 1 else 0
  {
    if tags != [] {
      assert tags == [tags[0]] + tags[1..];
      OnceInComic(tags[1..], t);
    }
  }

  // ---- runs of requests ----

  /** An edit of one comic, where stored says whether it can be written, or a batch. */
  datatype Request =
    | Edit(cid: int, added: seq<Tag>, removed: seq<Tag>, stored: bool)
    | Add(cids: seq<int>, tag: Tag, refused: set<nat>)

  /** The comics after a request, and for a batch the number of changes. Requests without content change nothing. */
  function Handled(comics: seq<Comic>, r: Request): (seq<Comic>, nat) {
    match r
    case Edit(cid, added, removed, stored) =>
      var i := Find(comics, cid);
      if cid <= 0 || (added == [] && removed == []) || i == |comics| || !stored then (comics, 0)
      else (Retagged(comics, i, Edited(comics[i].tags, Assigned(added, NextId(comics)), removed)), 0)
    case Add(cids, tag, refused) =>
      if cids == [] || (tag.id <= 0 && tag.name == "") then (comics, 0)
      else Batch(comics, if |cids| > MaxBatch then cids[..MaxBatch] else cids, tag, refused)
  }

  function HandledAll(comics: seq<Comic>, requests: seq<Request>): seq<Comic> {
    if requests == [] then comics
    else Handled(HandledAll(comics, requests[..|requests| - 1]), requests[|requests| - 1]).0
  }

  /** Requests never introduce a repeated key: where keys were distinct, they stay distinct over every run. */
  lemma {:induction false} RunKeepsKeys(comics: seq<Comic>, requests: seq<Request>)
    requires WellTagged(comics)
    ensures WellTagged(HandledAll(comics, requests))
    decreases |requests|
  {
    if requests != [] {
      var n := |requests| - 1;
      var before := HandledAll(comics, requests[..n]);
      RunKeepsKeys(comics, requests[..n]);
      match requests[n]
      case Edit(cid, added, removed, stored) =>
        var i := Find(before, cid);
        if i < |before| {
          var named := Assigned(added, NextId(before));
          EditMeans(before[i].tags, named, removed);
          RetaggedKeepsKeys(before, i, Edited(before[i].tags, named, removed));
        }
      case Add(cids, tag, refused) =>
        BatchKeepsKeys(before, if |cids| > MaxBatch then cids[..MaxBatch] else cids, tag, refused);
    }
  }

  // ---- what a request promises, from the comics before and after it ----

  /** The comic that a request for cid finds: the first with that cid. */
  predicate First(comics: seq<Comic>, cid: int, k: nat) {
    k < |comics| && comics[k].cid == cid && forall j :: 0 <= j < k ==> comics[j].cid != cid
  }

  ghost predicate Uses(comics: seq<Comic>, id: int) {
    exists k, t :: 0 <= k < |comics| && t in comics[k].tags && t.id == id
  }

  /** The smallest id of the reserved range that is greater than every id in use. */
  ghost predicate FirstNew(comics: seq<Comic>, first: int) {
    && first >= 1000000000 && (forall k, t :: 0 <= k < |comics| && t in comics[k].tags ==> t.id < first)
    && (first > 1000000000 ==> Uses(comics, first - 1))
  }

  function Blank(added: seq<Tag>): nat {
    if added == [] then 0 else Blank(added[..|added| - 1]) + (if added[|added| - 1].id == 0 then 1 else 0)
  }

  /** named are the added tags, those without an id numbered in order from first on. */
  predicate Numbered(added: seq<Tag>, named: seq<Tag>, first: int) {
    && |named| == |added|
    && forall j :: 0 <= j < |added| ==>
         named[j] == if added[j].id == 0 then added[j].(id := first + Blank(added[..j])) else added[j]
  }

  /** t is the first of its key among added, and no tag of before that stays has its key. */
  ghost predicate Joins(t: Tag, before: seq<Tag>, added: seq<Tag>, removed: seq<Tag>) {
    Key(t) !in Keys(before) - Keys(removed) && FirstOfKey(t, added)
  }

  ghost predicate FirstOfKey(t: Tag, added: seq<Tag>) {
    exists j :: 0 <= j < |added| && added[j] == t && Key(t) !in Keys(added[..j])
  }

  /** Tags stay as often as they were there, unless their key is removed; those that join come once. */
  ghost predicate TagsRight(before: seq<Tag>, after: seq<Tag>, named: seq<Tag>, removed: seq<Tag>) {
    forall t: Tag :: multiset(after)[t]
      == (if Key(t) in Keys(removed) then 0 else multiset(before)[t]) + (if Joins(t, before, named, removed) then 1 else 0)
  }

  /** The tags of the comic that was edited. */
  ghost predicate EditRight(comics: seq<Comic>, before: seq<Tag>, after: seq<Tag>, added: seq<Tag>, removed: seq<Tag>) {
    exists first, named :: FirstNew(comics, first) && Numbered(added, named, first) && TagsRight(before, after, named, removed)
  }

  /** A request to edit one comic changes its tags as asked and nothing else; one that is refused changes nothing. */
  ghost predicate EditDone(before: seq<Comic>, after: seq<Comic>, cid: int, added: seq<Tag>, removed: seq<Tag>, stored: bool) {
    && |after| == |before|
    && forall k :: 0 <= k < |before| ==>
         if cid > 0 && (added != [] || removed != []) && stored && First(before, cid, k)
         then after[k].cid == cid && EditRight(before, before[k].tags, after[k].tags, added, removed)
         else after[k] == before[k]
  }

  /** A batch appends its tag to the first comic of every cid that one of its first five hundred visits reaches, unless the
      comic has its key, and changes nothing else; it reports the number of comics it changed. */
  ghost predicate AddDone(before: seq<Comic>, after: seq<Comic>, updated: nat, cids: seq<int>, tag: Tag, refused: set<nat>) {
    && |after| == |before|
    && (forall k :: 0 <= k < |before| ==>
          after[k] == Comic(before[k].cid, before[k].tags + (if Receives(before, k, cids, tag, refused) then [tag] else [])))
    && updated == |Changed(before, after)|
  }

  ghost predicate Receives(comics: seq<Comic>, k: nat, cids: seq<int>, tag: Tag, refused: set<nat>)
    requires k < |comics|
  {
    && (tag.id > 0 || tag.name != "")
    && First(comics, comics[k].cid, k) && Key(tag) !in Keys(comics[k].tags)
    && exists j :: 0 <= j < |cids| && j < 500 && j !in refused && cids[j] == comics[k].cid
  }

  ghost function Changed(before: seq<Comic>, after: seq<Comic>): set<int> {
    set k | 0 <= k < |before| && k < |after| && after[k] != before[k]
  }

  lemma FindFirst(comics: seq<Comic>, cid: int, k: nat)
    requires k < |comics|
    ensures Find(comics, cid) == k <==> First(comics, cid, k)
  {
  }

  lemma {:induction false} InFlat(comics: seq<Comic>, t: Tag)
    ensures t in Flat(comics) <==> exists k :: 0 <= k < |comics| && t in comics[k].tags
  {
    if comics != [] {
      var n := |comics| - 1;
      InFlat(comics[..n], t);
      if exists k :: 0 <= k < n && t in comics[..n][k].tags {
        var k :| 0 <= k < n && t in comics[..n][k].tags;
        assert t in comics[k].tags;
      }
      if exists k :: 0 <= k < |comics| && t in comics[k].tags {
        var k :| 0 <= k < |comics| && t in comics[k].tags;
        if k < n { assert t in comics[..n][k].tags; }
      }
    }
  }

  lemma {:induction false} MaxIdThere(tags: seq<Tag>)
    requires tags != []
    ensures exists t :: t in tags && t.id == MaxId(tags)
  {
    if |tags| > 1 && tags[0].id <= MaxId(tags[1..]) {
      MaxIdThere(tags[1..]);
      var t :| t in tags[1..] && t.id == MaxId(tags[1..]);
      assert t in tags;
    } else {
      assert tags[0] in tags;
    }
  }

  lemma NextIsNew(comics: seq<Comic>)
    ensures FirstNew(comics, NextId(comics))
  {
    var flat := Flat(comics);
    MaxIdBounds(flat);
    forall k, t | 0 <= k < |comics| && t in comics[k].tags ensures t.id < NextId(comics) { InFlat(comics, t); }
    if NextId(comics) > FirstFreeId {
      MaxIdThere(flat);
      var t :| t in flat && t.id == MaxId(flat);
      InFlat(comics, t);
      var k :| 0 <= k < |comics| && t in comics[k].tags;
      assert Uses(comics, t.id);
    }
  }

  lemma BlankHead(added: seq<Tag>)
    requires added != []
    ensures Blank(added) == Blank(added[1..]) + (if added[0].id == 0 then 1 else 0)
    decreases |added|
  {
    var n := |added| - 1;
    if n > 0 {
      BlankHead(added[..n]);
      assert added[..n][1..] == added[1..][..n - 1];
    }
  }

  lemma {:induction false} AssignedNumbered(added: seq<Tag>, first: int)
    ensures Numbered(added, Assigned(added, first), first)
    decreases |added|
  {
    if added != [] {
      var next := if added[0].id == 0 then first + 1 else first;
      AssignedNumbered(added[1..], next);
      forall j | 1 <= j < |added| ensures Blank(added[..j]) == Blank(added[1..][..j - 1]) + (if added[0].id == 0 then 1 else 0) {
        BlankHead(added[..j]);
        assert added[..j][1..] == added[1..][..j - 1];
      }
      forall j | 0 <= j < |added|
        ensures Assigned(added, first)[j]
                == if added[j].id == 0 then added[j].(id := first + Blank(added[..j])) else added[j]
      {
        if j > 0 { assert added[1..][j - 1] == added[j] && Assigned(added, first)[j] == Assigned(added[1..], next)[j - 1]; }
      }
    }
  }

  lemma {:induction false} KeptTimes(tags: seq<Tag>, keys: set<string>, t: Tag)
    ensures multiset(Kept(tags, keys))[t] == if Key(t) in keys then 0 else multiset(tags)[t]
  {
    if tags != [] {
      var before, last := tags[..|tags| - 1], tags[|tags| - 1];
      assert tags == before + [last];
      KeptTimes(before, keys, t);
      KeptLast(before, last, keys);
      Without0(Kept(before, keys));
    }
  }

  lemma KeptKeys(tags: seq<Tag>, keys: set<string>)
    ensures Keys(Kept(tags, keys)) == Keys(tags) - keys
  {
    KeptMembers(tags, keys);
    forall k | k in Keys(tags) - keys ensures k in Keys(Kept(tags, keys)) {
      var t :| t in tags && Key(t) == k;
      assert t in Kept(tags, keys);
    }
  }

  lemma FirstOfKeyHead(t: Tag, added: seq<Tag>)
    requires added != []
    ensures FirstOfKey(t, added) <==> t == added[0] || (Key(t) != Key(added[0]) && FirstOfKey(t, added[1..]))
  {
    if t == added[0] { assert added[0] == t && Keys(added[..0]) == {}; }
    if FirstOfKey(t, added) && t != added[0] { FirstBehindHead(t, added); }
    if Key(t) != Key(added[0]) && FirstOfKey(t, added[1..]) { FirstStays(t, added); }
  }

  lemma FirstBehindHead(t: Tag, added: seq<Tag>)
    requires added != [] && FirstOfKey(t, added) && t != added[0]
    ensures Key(t) != Key(added[0]) && FirstOfKey(t, added[1..])
  {
    var j :| 0 <= j < |added| && added[j] == t && Key(t) !in Keys(added[..j]);
    KeysOfHead(added[..j]);
    assert added[..j][1..] == added[1..][..j - 1] && added[1..][j - 1] == t;
  }

  lemma FirstStays(t: Tag, added: seq<Tag>)
    requires added != [] && Key(t) != Key(added[0]) && FirstOfKey(t, added[1..])
    ensures FirstOfKey(t, added)
  {
    var j :| 0 <= j < |added[1..]| && added[1..][j] == t && Key(t) !in Keys(added[1..][..j]);
    KeysOfHead(added[..j + 1]);
    assert added[..j + 1][1..] == added[1..][..j] && added[j + 1] == t;
  }

  lemma {:induction false} NewOnesTimes(tags: seq<Tag>, added: seq<Tag>, t: Tag)
    ensures multiset(NewOnes(tags, added))[t] == if Key(t) !in Keys(tags) && FirstOfKey(t, added) then 1 else 0
    decreases |added|
  {
    if added != [] {
      FirstOfKeyHead(t, added);
      if Key(added[0]) in Keys(tags) {
        NewOnesTimes(tags, added[1..], t);
      } else {
        NewOnesTimes(tags + [added[0]], added[1..], t);
        KeysOfLast(tags, added[0]);
      }
    }
  }

  lemma EditedRight(tags: seq<Tag>, named: seq<Tag>, removed: seq<Tag>)
    ensures TagsRight(tags, Edited(tags, named, removed), named, removed)
  {
    var kept := Kept(tags, Keys(removed));
    KeptKeys(tags, Keys(removed));
    forall t: Tag
      ensures multiset(Edited(tags, named, removed))[t]
        == (if Key(t) in Keys(removed) then 0 else multiset(tags)[t]) + (if Joins(t, tags, named, removed) then 1 else 0)
    {
      KeptTimes(tags, Keys(removed), t);
      NewOnesTimes(kept, named, t);
      Together(kept, NewOnes(kept, named));
    }
  }

  lemma HandledEdit(comics: seq<Comic>, cid: int, added: seq<Tag>, removed: seq<Tag>, stored: bool)
    ensures EditDone(comics, Handled(comics, Edit(cid, added, removed, stored)).0, cid, added, removed, stored)
  {
    var i := Find(comics, cid);
    forall k | 0 <= k < |comics| ensures i == k <==> First(comics, cid, k) { FindFirst(comics, cid, k); }
    if i < |comics| {
      var named := Assigned(added, NextId(comics));
      NextIsNew(comics);
      AssignedNumbered(added, NextId(comics));
      EditedRight(comics[i].tags, named, removed);
      assert EditRight(comics, comics[i].tags, Edited(comics[i].tags, named, removed), added, removed);
    }
  }

  lemma {:induction false} BatchChanges(comics: seq<Comic>, cids: seq<int>, tag: Tag, refused: set<nat>)
    ensures var r := Batch(comics, cids, tag, refused); r.1 == |Changed(comics, r.0)|
    decreases |cids|
  {
    if cids == [] {
      assert Changed(comics, comics) == {};
    } else {
      var last := |cids| - 1;
      var before := Batch(comics, cids[..last], tag, refused).0;
      BatchChanges(comics, cids[..last], tag, refused);
      var i := Find(before, cids[last]);
      if last !in refused && i < |before| && Key(tag) !in Keys(before[i].tags) {
        ChangesOnce(comics, cids[..last], tag, refused, i);
        ChangedNext(comics, before, i, before[i].tags + [tag]);
      }
    }
  }

  lemma ChangedNext(comics: seq<Comic>, before: seq<Comic>, i: nat, tags: seq<Tag>)
    requires i < |comics| == |before| && before[i] == comics[i] && tags != before[i].tags
    ensures |Changed(comics, Retagged(before, i, tags))| == |Changed(comics, before)| + 1
  {
    assert Changed(comics, Retagged(before, i, tags)) == Changed(comics, before) + {i};
  }

  /** A comic that still lacks the key has not been changed. */
  lemma ChangesOnce(comics: seq<Comic>, cids: seq<int>, tag: Tag, refused: set<nat>, i: nat)
    requires i < |comics| && Key(tag) !in Keys(Batch(comics, cids, tag, refused).0[i].tags)
    ensures Batch(comics, cids, tag, refused).0[i] == comics[i]
  {
    BatchMeans(comics, cids, tag, refused, i);
    KeysOfLast(comics[i].tags, tag);
    Without0(comics[i].tags);
  }

  lemma HandledAdd(comics: seq<Comic>, cids: seq<int>, tag: Tag, refused: set<nat>)
    ensures var r := Handled(comics, Add(cids, tag, refused)); AddDone(comics, r.0, r.1, cids, tag, refused)
  {
    var r := Handled(comics, Add(cids, tag, refused));
    if cids == [] || (tag.id <= 0 && tag.name == "") {
      assert Changed(comics, comics) == {};
    } else {
      var list := if |cids| > MaxBatch then cids[..MaxBatch] else cids;
      BatchChanges(comics, list, tag, refused);
      forall k | 0 <= k < |comics|
        ensures r.0[k] == Comic(comics[k].cid, comics[k].tags + (if Receives(comics, k, cids, tag, refused) then [tag] else []))
      {
        BatchMeans(comics, list, tag, refused, k);
        FindFirst(comics, comics[k].cid, k);
        VisitedIn(comics[k].cid, cids, refused);
      }
    }
  }

  lemma VisitedIn(cid: int, cids: seq<int>, refused: set<nat>)
    ensures Visited(cid, if |cids| > MaxBatch then cids[..MaxBatch] else cids, refused)
            <==> exists j :: 0 <= j < |cids| && j < 500 && j !in refused && cids[j] == cid
  {
    var list := if |cids| > MaxBatch then cids[..MaxBatch] else cids;
    if Visited(cid, list, refused) {
      var j :| 0 <= j < |list| && j !in refused && list[j] == cid;
      assert cids[j] == cid;
    }
    if exists j :: 0 <= j < |cids| && j < 500 && j !in refused && cids[j] == cid {
      var j :| 0 <= j < |cids| && j < 500 && j !in refused && cids[j] == cid;
      assert list[j] == cid;
    }
  }

  /** The keys of an edited comic: the old ones without those of removed, and those of the added tags once numbered. */
  lemma EditKeys(before: seq<Tag>, after: seq<Tag>, named: seq<Tag>, removed: seq<Tag>)
    requires TagsRight(before, after, named, removed)
    ensures Keys(after) == (Keys(before) - Keys(removed)) + Keys(named)
  {
    forall k ensures k in Keys(after) <==> k in (Keys(before) - Keys(removed)) + Keys(named) {
      if k in Keys(after) {
        var t :| t in after && Key(t) == k;
        assert multiset(after)[t] > 0;
        if !Joins(t, before, named, removed) { assert multiset(before)[t] > 0; }
      }
      if k in Keys(before) - Keys(removed) {
        var t :| t in before && Key(t) == k;
        assert multiset(before)[t] > 0;
        assert multiset(after)[t] > 0;
      } else if k in Keys(named) {
        var t := FirstWithKey(named, k);
        assert Joins(t, before, named, removed);
        assert multiset(after)[t] > 0;
      }
    }
  }

  lemma {:induction false} FirstWithKey(named: seq<Tag>, k: string) returns (t: Tag)
    requires k in Keys(named)
    ensures Key(t) == k && FirstOfKey(t, named)
  {
    if Key(named[0]) == k {
      t := named[0];
    } else {
      KeysOfHead(named);
      t := FirstWithKey(named[1..], k);
    }
    FirstOfKeyHead(t, named);
  }

  /** An added tag without an id is there afterwards, under its kind, name and url and a new id of the reserved range,
      exactly if no tag that stays and no other tag added before it has the key that its id gives it. */
  lemma NewTagStored(comics: seq<Comic>, before: seq<Tag>, after: seq<Tag>, added: seq<Tag>, named: seq<Tag>, removed: seq<Tag>,
                     first: int, k: nat, j: nat)
    requires FirstNew(comics, first) && Numbered(added, named, first) && TagsRight(before, after, named, removed)
    requires k < |comics| && comics[k].tags == before && j < |added| && added[j].id == 0
    ensures named[j] == added[j].(id := named[j].id) && named[j].id >= FirstFreeId
    ensures named[j] in after <==> Key(named[j]) !in Keys(before) - Keys(removed) && FirstOfKey(named[j], named[..j + 1])
  {
    var t := named[j];
    assert t !in before && multiset(before)[t] == 0;
    FirstSoFar(t, named, j);
    assert multiset(after)[t] > 0 <==> t in after;
  }

  lemma PrefixHasKey(named: seq<Tag>, i: nat, j: nat)
    requires j < i <= |named|
    ensures Key(named[j]) in Keys(named[..i])
  {
    assert named[..i][j] == named[j];
  }

  lemma FirstSoFar(t: Tag, named: seq<Tag>, j: nat)
    requires j < |named| && named[j] == t
    ensures FirstOfKey(t, named) <==> FirstOfKey(t, named[..j + 1])
  {
    if FirstOfKey(t, named) {
      var i: nat :| i < |named| && named[i] == t && Key(t) !in Keys(named[..i]);
      if j < i { PrefixHasKey(named, i, j); }
      assert named[..j + 1][..i] == named[..i] && named[..j + 1][i] == t;
    }
    if FirstOfKey(t, named[..j + 1]) {
      var i :| 0 <= i < j + 1 && named[..j + 1][i] == t && Key(t) !in Keys(named[..j + 1][..i]);
      assert named[..j + 1][..i] == named[..i] && named[i] == t;
    }
  }

  /** It need not be: the new id is chosen without a look at the other tags of the request. */
  lemma NewTagMayBeLost()
    ensures var comics := [Comic(1, [])];
            var added := [Tag("artist", FirstFreeId, "a", ""), Tag("artist", 0, "b", "")];
            Handled(comics, Edit(1, added, [], true)).0 == [Comic(1, [Tag("artist", FirstFreeId, "a", "")])]
  {
    var a, b := Tag("artist", FirstFreeId, "a", ""), Tag("artist", FirstFreeId, "b", "");
    var added := [a, b.(id := 0)];
    var comics := [Comic(1, [])];
    assert Flat(comics) == [] by { assert Flat([]) == []; }
    assert Assigned(added, FirstFreeId) == [a, b] by { assert added[1..] == [b.(id := 0)]; }
    assert Edited([], [a, b], []) == [a] by {
      assert Key(b) in Keys([a]) by { assert a in [a] && Key(a) == Key(b); }
      assert [a, b][1..] == [b] && [] + [a] == [a] && [b][1..] == [];
      assert NewOnes([a], [b]) == [];
    }
  }

  // ---- which tags share a key ----

  /** Both numbered alike, both unnumbered and named alike, or one named like the other's number. */
  predicate SameValue(a: Tag, b: Tag) {
    if a.id > 0 && b.id > 0 then a.id == b.id
    else if a.id > 0 then b.name == Decimal.Show(a.id)
    else if b.id > 0 then a.name == Decimal.Show(b.id)
    else a.name == b.name
  }

  /** The kind of b goes on where the kind of a ends, with a colon, and the name of a makes up for the difference. */
  ghost predicate Borrows(a: Tag, b: Tag) {
    a.id <= 0 && exists x :: b.kind == a.kind + ":" + x && a.name == x + ":" + Value(b)
  }

  lemma ValueExact(a: Tag, b: Tag)
    ensures Value(a) == Value(b) <==> SameValue(a, b)
  {
    if a.id > 0 { Decimal.ReadShow(a.id); }
    if b.id > 0 { Decimal.ReadShow(b.id); }
  }

  lemma LongerKind(a: Tag, b: Tag)
    requires Key(a) == Key(b) && |a.kind| < |b.kind|
    ensures Borrows(a, b)
  {
    var n, key := |a.kind|, Key(a);
    assert b.kind == key[..|b.kind|] && a.kind == key[..n];
    assert key[n] == ':' == b.kind[n];
    var x := b.kind[n + 1..];
    assert b.kind == b.kind[..n] + [b.kind[n]] + x == a.kind + ":" + x;
    assert Value(a) == key[n + 1..] && key[n + 1..] == x + ":" + Value(b);
    assert Value(a)[|x|] == ':';
  }

  /** Exactly which tags share a key: same kind and value, or a kind with a colon that takes in part of a name. */
  lemma KeyExact(a: Tag, b: Tag)
    ensures Key(a) == Key(b) <==> (a.kind == b.kind && SameValue(a, b)) || Borrows(a, b) || Borrows(b, a)
  {
    ValueExact(a, b);
    if Key(a) == Key(b) {
      if |a.kind| < |b.kind| {
        LongerKind(a, b);
      } else if |b.kind| < |a.kind| {
        LongerKind(b, a);
      } else {
        assert a.kind == Key(a)[..|a.kind|] == b.kind;
        assert Value(a) == Key(a)[|a.kind| + 1..] == Value(b);
      }
    }
  }

  lemma BorrowsColon(a: Tag, b: Tag)
    ensures Borrows(a, b) ==> !Text.Free(b.kind, ':')
  {
    if Borrows(a, b) { assert b.kind[|a.kind|] == ':'; }
  }

  /** For kinds without a colon: same kind, and the same number, the same name, or a name like the number. */
  lemma PlainKeyExact(a: Tag, b: Tag)
    requires Text.Free(a.kind, ':') && Text.Free(b.kind, ':')
    ensures Key(a) == Key(b) <==> a.kind == b.kind && SameValue(a, b)
  {
    KeyExact(a, b);
    BorrowsColon(a, b);
    BorrowsColon(b, a);
  }

  /** Keys do not separate a numbered tag from an unnumbered one that is named like the number, nor a kind with a colon
      from a name with one. */
  lemma KeysMeet()
    ensures Key(Tag("artist", 7, "someone", "")) == Key(Tag("artist", 0, "7", ""))
    ensures Key(Tag("a:b", 0, "c", "")) == Key(Tag("a", 0, "b:c", ""))
  {
    assert Decimal.Show(7) == ['7'];
  }

  // ---- the handlers ----

  lemma OneMoreTag(m: multiset<Tag>, tags: seq<Tag>, i: nat)
    requires i < |tags|
    ensures m + multiset(tags[..i + 1]) == More(m + multiset(tags[..i]), tags[i], 1)
  {
    assert tags[..i + 1] == tags[..i] + [tags[i]];
  }

  lemma NewOnesRest(now: seq<Tag>, newOnes: seq<Tag>, added: seq<Tag>, i: nat)
    requires i < |added|
    ensures newOnes + NewOnes(now, added[i..])
            == if Key(added[i]) in Keys(now) then newOnes + NewOnes(now, added[i + 1..])
               else newOnes + [added[i]] + NewOnes(now + [added[i]], added[i + 1..])
  {
    assert added[i..][0] == added[i] && added[i..][1..] == added[i + 1..];
  }

  lemma BatchNext(comics: seq<Comic>, list: seq<int>, tag: Tag, refused: set<nat>, n: nat)
    requires n < |list|
    ensures var (before, k) := Batch(comics, list[..n], tag, refused);
            var i := Find(before, list[n]);
            Batch(comics, list[..n + 1], tag, refused)
            == if n in refused || i == |before| || Key(tag) in Keys(before[i].tags) then (before, k)
               else (Retagged(before, i, before[i].tags + [tag]), k + 1)
  {
    assert list[..n + 1][..n] == list[..n];
  }

  class Catalogue {
    var comics: seq<Comic>
    var index: map<Tag, int>

    /** The index is what a full count would give. */
    ghost predicate Valid()
      reads this
    {
      index == Tally(comics)
    }

    /** A collection as it is found, freshly counted. */
    constructor (comics: seq<Comic>)
      ensures Valid() && this.comics == comics
    {
      this.comics, index := comics, Tally(comics);
    }

    method UpdateIncremental(t: Tag, d: int)
      modifies this`index
      ensures Bumped(old(index), t, d, index)
    {
      if d > 0 {
        index := index[t := (if t in index then index[t] else 0) + d];
      } else if d < 0 {
        if t in index { index := index[t := index[t] + d]; }
        var victims := set v | v in index && v.kind == t.kind && v.id == t.id && index[v] <= 0;
        if victims != {} {
          var v :| v in victims;
          ghost var before := index;
          index := index - {v};
          assert OneDeleted(before, t.kind, t.id, index);
        } else {
          assert forall v | v in index :: v !in victims;
        }
      }
    }

    method AggregateTags()
      modifies this`index
      ensures index == Aggregated(old(index), comics)
      ensures old(Valid()) ==> index == old(index)
    {
      index := index + Tally(comics);
    }

    method Split(tags: seq<Tag>, removed: seq<Tag>) returns (kept: seq<Tag>, dropped: seq<Tag>)
      ensures kept == Kept(tags, Keys(removed)) && dropped == Dropped(tags, Keys(removed))
    {
      var keys := Keys(removed);
      kept, dropped := [], [];
      for i := 0 to |tags|
        invariant kept == Kept(tags[..i], keys) && dropped == Dropped(tags[..i], keys)
      {
        assert tags[..i + 1][..i] == tags[..i];
        if Key(tags[i]) in keys { dropped := dropped + [tags[i]]; } else { kept := kept + [tags[i]]; }
      }
      assert tags[..|tags|] == tags;
    }

    method Append(tags: seq<Tag>, added: seq<Tag>) returns (now: seq<Tag>, newOnes: seq<Tag>)
      ensures now == tags + newOnes && newOnes == NewOnes(tags, added)
    {
      now, newOnes := tags, [];
      for i := 0 to |added|
        invariant now == tags + newOnes && newOnes + NewOnes(now, added[i..]) == NewOnes(tags, added)
      {
        NewOnesRest(now, newOnes, added, i);
        if Key(added[i]) !in Keys(now) { now, newOnes := now + [added[i]], newOnes + [added[i]]; }
      }
    }

    method CountUp(tags: seq<Tag>, ghost m: multiset<Tag>)
      requires Counts(index, m)
      modifies this`index
      ensures Counts(index, m + multiset(tags))
    {
      for i := 0 to |tags|
        invariant Counts(index, m + multiset(tags[..i]))
      {
        ghost var before := index;
        UpdateIncremental(tags[i], 1);
        BumpUp(before, m + multiset(tags[..i]), tags[i], 1, index);
        OneMoreTag(m, tags, i);
      }
      assert tags[..|tags|] == tags;
    }

    method CountDown(tags: seq<Tag>, ghost m: multiset<Tag>)
      requires Counts(index, m) && multiset(tags) <= m
      modifies this`index
      ensures Counts(index, m - multiset(tags))
    {
      for i := 0 to |tags|
        invariant Counts(index, m - multiset(tags[..i]))
      {
        assert tags == tags[..i] + [tags[i]] + tags[i + 1..];
        assert tags[..i + 1] == tags[..i] + [tags[i]];
        ghost var before := index;
        UpdateIncremental(tags[i], -1);
        BumpDown(before, m - multiset(tags[..i]), tags[i], index);
        assert m - multiset(tags[..i + 1]) == m - multiset(tags[..i]) - multiset{tags[i]};
      }
      assert tags[..|tags|] == tags;
    }

    /** Adds and removes tags of one comic; stored says whether writing the comic succeeds. A request that is refused,
        changes nothing or cannot be stored leaves everything as it was. */
    method UpdateComicTags(cid: int, added: seq<Tag>, removed: seq<Tag>, stored: bool)
      requires Valid()
      modifies this
      ensures Valid()
      ensures comics == Handled(old(comics), Edit(cid, added, removed, stored)).0
      ensures EditDone(old(comics), comics, cid, added, removed, stored)
    {
      HandledEdit(comics, cid, added, removed, stored);
      if cid <= 0 || (added == [] && removed == []) { return; }
      var i := Find(comics, cid);
      if i == |comics| { return; }
      EditTags(i, Assigned(added, NextId(comics)), removed, stored);
    }

    method EditTags(i: nat, named: seq<Tag>, removed: seq<Tag>, stored: bool)
      requires Valid() && i < |comics|
      modifies this
      ensures Valid()
      ensures comics == if stored then old(Retagged(comics, i, Edited(comics[i].tags, named, removed))) else old(comics)
    {
      var kept, dropped := Split(comics[i].tags, removed);
      var now, newOnes := Append(kept, named);
      if newOnes == [] && dropped == [] {
        NothingEdited(comics, i, named, removed);
        return;
      }
      if !stored { return; }
      KeptAndDropped(comics[i].tags, Keys(removed));
      EditBalance(comics, i, kept, dropped, newOnes);
      CountEdit(i, now, dropped, newOnes);
    }

    method CountEdit(i: nat, now: seq<Tag>, dropped: seq<Tag>, newOnes: seq<Tag>)
      requires i < |comics| && index == Tally(comics)
      requires multiset(dropped) <= multiset(Flat(comics)) + multiset(newOnes)
      requires multiset(Flat(Retagged(comics, i, now))) == multiset(Flat(comics)) + multiset(newOnes) - multiset(dropped)
      modifies this
      ensures comics == Retagged(old(comics), i, now) && index == Tally(comics)
    {
      ghost var m := multiset(Flat(comics));
      CountsIsTally(index, comics);
      comics := Retagged(comics, i, now);
      CountUp(newOnes, m);
      CountDown(dropped, m + multiset(newOnes));
      CountsIsTally(index, comics);
    }

    /** Adds a tag to many comics and counts the changes at the end; counted says whether that last step succeeds. If
        it does not, everything is counted afresh. */
    method BatchAddTag(cids: seq<int>, tag: Tag, refused: set<nat>, counted: bool) returns (updated: nat)
      requires Valid()
      modifies this
      ensures Valid()
      ensures (comics, updated) == Handled(old(comics), Add(cids, tag, refused))
      ensures AddDone(old(comics), comics, updated, cids, tag, refused)
    {
      HandledAdd(comics, cids, tag, refused);
      updated := 0;
      if cids == [] || (tag.id <= 0 && tag.name == "") { return; }
      var list := if |cids| > MaxBatch then cids[..MaxBatch] else cids;
      updated := VisitAll(list, tag, refused);
      BatchCounts(old(comics), list, tag, refused);
      CountBatch(old(comics), tag, updated, counted);
    }

    method VisitAll(list: seq<int>, tag: Tag, refused: set<nat>) returns (updated: nat)
      modifies this`comics
      ensures (comics, updated) == Batch(old(comics), list, tag, refused)
    {
      updated := 0;
      for n := 0 to |list|
        invariant (comics, updated) == Batch(old(comics), list[..n], tag, refused)
      {
        BatchNext(old(comics), list, tag, refused, n);
        var i := Find(comics, list[n]);
        if n !in refused && i < |comics| && Key(tag) !in Keys(comics[i].tags) {
          comics, updated := Retagged(comics, i, comics[i].tags + [tag]), updated + 1;
        }
      }
      assert list[..|list|] == list;
    }

    method CountBatch(ghost before: seq<Comic>, tag: Tag, updated: nat, counted: bool)
      requires index == Tally(before) && multiset(Flat(comics)) == More(multiset(Flat(before)), tag, updated)
      modifies this`index
      ensures index == Tally(comics)
    {
      if counted {
        CountsIsTally(index, before);
        UpdateIncremental(tag, updated);
        BumpUp(old(index), multiset(Flat(before)), tag, updated, index);
        CountsIsTally(index, comics);
      } else {
        StillOccurs(before, comics, tag, updated);
        AggregateExact(index, comics);
        AggregateTags();
      }
    }
  }

  lemma StillOccurs(before: seq<Comic>, after: seq<Comic>, tag: Tag, n: nat)
    requires multiset(Flat(after)) == More(multiset(Flat(before)), tag, n)
    ensures forall t :: t in Flat(before) ==> t in Flat(after)
  {
    forall t | t in Flat(before) ensures t in Flat(after) {
      assert t in multiset(Flat(before));
      assert t in multiset(Flat(after));
    }
  }
}
