/** The tag list: where each section starts, on which page, and how a page is cut into sections. */
module Sections {
  import Arithmetic

  predicate IsUpper(c: char) { 'A' <= c <= 'Z' }
  predicate IsLower(c: char) { 'a' <= c <= 'z' }
  predicate IsLetter(c: char) { IsUpper(c) || IsLower(c) }

  function Upper(c: char): char
    requires IsLower(c)
  {
    c - 'a' + 'A'
  }

  /** The section of a tag is the upper-case initial of its name, or '#' if that is no letter. */
  datatype Tag = Tag(name: string) {
    function SectionName(): char {
      if name == "" then '#'
      else if IsLower(name[0]) then Upper(name[0])
      else if IsUpper(name[0]) then name[0]
      else '#'
    }
  }
  datatype Section = Section(name: char, tags: seq<Tag>)

  // ---- cutting a page ----

  function Concat(sections: seq<Section>): seq<Tag> {
    if sections == [] then [] else Concat(sections[..|sections| - 1]) + sections[|sections| - 1].tags
  }

  predicate Homogeneous(tags: seq<Tag>, name: char) {
    tags != [] && forall i :: 0 <= i < |tags| ==> tags[i].SectionName() == name
  }

  /** Every section is named after all its tags, and neighbours have different names. */
  predicate Proper(sections: seq<Section>) {
    && (forall i :: 0 <= i < |sections| ==> Homogeneous(sections[i].tags, sections[i].name))
    && (forall i :: 0 < i < |sections| ==> sections[i - 1].name != sections[i].name)
  }

  /** The shortcut for pages whose first and last tag share a section is right only if all tags do. */
  predicate ShortcutRight(tags: seq<Tag>) {
    tags == [] || tags[0].SectionName() != tags[|tags| - 1].SectionName() || Homogeneous(tags, tags[0].SectionName())
  }

  lemma ConcatLast(sections: seq<Section>, last: Section)
    ensures Concat(sections + [last]) == Concat(sections) + last.tags
  {
    assert (sections + [last])[..|sections|] == sections;
  }

  /** The sections before position left are closed; the next one reaches at least to i. */
  ghost predicate Cut(tags: seq<Tag>, closed: seq<Section>, left: nat, i: nat) {
    && left < i <= |tags|
    && Concat(closed) == tags[..left]
    && Proper(closed) && Homogeneous(tags[left..i], tags[left].SectionName())
    && (closed != [] ==> closed[|closed| - 1].name != tags[left].SectionName())
  }

  lemma CutFirst(tags: seq<Tag>)
    requires tags != []
    ensures Cut(tags, [], 0, 1)
  {
  }

  lemma CutSame(tags: seq<Tag>, closed: seq<Section>, left: nat, i: nat)
    requires Cut(tags, closed, left, i) && i < |tags| && tags[i].SectionName() == tags[left].SectionName()
    ensures Cut(tags, closed, left, i + 1)
  {
    assert tags[left..i + 1] == tags[left..i] + [tags[i]];
  }

  lemma CutNext(tags: seq<Tag>, closed: seq<Section>, left: nat, i: nat)
    requires Cut(tags, closed, left, i) && i < |tags| && tags[i].SectionName() != tags[left].SectionName()
    ensures Cut(tags, closed + [Section(tags[left].SectionName(), tags[left..i])], i, i + 1)
  {
    ConcatLast(closed, Section(tags[left].SectionName(), tags[left..i]));
    assert tags[..left] + tags[left..i] == tags[..i];
    assert tags[i..i + 1] == [tags[i]];
  }

  lemma CutAll(tags: seq<Tag>, closed: seq<Section>, left: nat)
    requires Cut(tags, closed, left, |tags|)
    ensures var sections := closed + [Section(tags[left].SectionName(), tags[left..])]; Concat(sections) == tags && Proper(sections)
  {
    ConcatLast(closed, Section(tags[left].SectionName(), tags[left..]));
    assert tags[left..|tags|] == tags[left..] && tags[..left] + tags[left..] == tags;
  }

  lemma OneSection(tags: seq<Tag>)
    requires tags != []
    ensures var sections := [Section(tags[0].SectionName(), tags)];
            Concat(sections) == tags && (Proper(sections) <==> Homogeneous(tags, tags[0].SectionName()))
  {
    ConcatLast([], Section(tags[0].SectionName(), tags));
    assert [] + [Section(tags[0].SectionName(), tags)] == [Section(tags[0].SectionName(), tags)];
  }

  /** The last section is still open: it holds everything from left on. */
  ghost predicate Open(tags: seq<Tag>, sections: seq<Section>, left: nat, i: nat) {
    && sections != [] && left < |tags|
    && Cut(tags, sections[..|sections| - 1], left, i)
    && sections[|sections| - 1] == Section(tags[left].SectionName(), tags[left..])
  }

  lemma OpenNext(tags: seq<Tag>, sections: seq<Section>, left: nat, i: nat)
    requires Open(tags, sections, left, i) && i < |tags| && tags[i].SectionName() != tags[left].SectionName()
    ensures var idx := |sections| - 1;
            Open(tags, sections[idx := sections[idx].(tags := tags[left..i])] + [Section(tags[i].SectionName(), tags[i..])], i, i + 1)
  {
    var idx := |sections| - 1;
    var closed := sections[idx := sections[idx].(tags := tags[left..i])];
    CutNext(tags, sections[..idx], left, i);
    assert closed == sections[..idx] + [Section(tags[left].SectionName(), tags[left..i])];
    assert (closed + [Section(tags[i].SectionName(), tags[i..])])[..|closed|] == closed;
  }

  /** The sections make up the page, and they are proper exactly when the shortcut does not swallow a section. */
  method TagsSections(tags: seq<Tag>) returns (sections: seq<Section>)
    ensures Concat(sections) == tags
    ensures Proper(sections) <==> ShortcutRight(tags)
  {
    if tags == [] { return []; }
    sections := [Section(tags[0].SectionName(), tags)];
    OneSection(tags);
    if tags[|tags| - 1].SectionName() == sections[0].name { return; }
    sections := CutPage(tags);
  }

  method CutPage(tags: seq<Tag>) returns (sections: seq<Section>)
    requires tags != []
    ensures Concat(sections) == tags && Proper(sections)
  {
    sections := [Section(tags[0].SectionName(), tags)];
    var idx, left := 0, 0;
    CutFirst(tags);
    for i := 1 to |tags|
      invariant Open(tags, sections, left, i) && idx == |sections| - 1
    {
      if sections[idx].name == tags[i].SectionName() {
        CutSame(tags, sections[..idx], left, i);
      } else {
        OpenNext(tags, sections, left, i);
        sections := sections[idx := sections[idx].(tags := tags[left..i])] + [Section(tags[i].SectionName(), tags[i..])];
        idx, left := idx + 1, i;
      }
    }
    CutAll(tags, sections[..idx], left);
    assert sections == sections[..idx] + [sections[idx]];
  }

  /** A page that starts and ends in the same section hides what lies between. */
  lemma ShortcutSwallows()
    ensures !ShortcutRight([Tag("Ann"), Tag("Bob"), Tag("al")])
  {
    assert [Tag("Ann"), Tag("Bob"), Tag("al")][1].SectionName() != 'A';
  }

  ghost predicate Ordered(all: seq<Tag>) {
    forall i, j :: 0 <= i < j < |all| ==> all[i].SectionName() <= all[j].SectionName()
  }

  /** On every page of a list ordered by section the shortcut is right. */
  lemma OrderedPage(all: seq<Tag>, low: nat, high: nat)
    requires Ordered(all) && low <= high <= |all|
    ensures ShortcutRight(all[low..high])
  {
  }

  // ---- lists sorted by name ----

  /** The order of names in the database: byte by byte, which is the order of characters. */
  predicate AtMost(a: string, b: string) {
    a == "" || (b != "" && (a[0] < b[0] || (a[0] == b[0] && AtMost(a[1..], b[1..]))))
  }

  ghost predicate SortedByName(all: seq<Tag>) {
    forall i, j :: 0 <= i < j < |all| ==> AtMost(all[i].name, all[j].name)
  }

  /** Two initials in the order of their sections: no other character stands behind a letter, and no capital letter
      stands before a small letter that precedes it in the alphabet. */
  predicate InitialsFit(a: string, b: string) {
    a != "" && b != "" ==>
      && !(IsLetter(a[0]) && !IsLetter(b[0]) && a[0] < b[0])
      && (IsUpper(a[0]) && IsLower(b[0]) ==> a[0] <= Upper(b[0]))
  }

  ghost predicate InitialsOk(all: seq<Tag>) {
    forall a, b :: a in all && b in all ==> InitialsFit(a.name, b.name)
  }

  lemma PairExact(a: Tag, b: Tag)
    requires AtMost(a.name, b.name)
    ensures a.SectionName() <= b.SectionName() <==> InitialsFit(a.name, b.name)
  {
  }

  lemma BackwardFits(a: Tag, b: Tag)
    requires AtMost(a.name, b.name)
    ensures InitialsFit(b.name, a.name)
  {
  }

  /** A list sorted by name is ordered by section if and only if its initials fit, in whatever order they stand. */
  lemma SortedExact(all: seq<Tag>)
    requires SortedByName(all)
    ensures Ordered(all) <==> InitialsOk(all)
  {
    if Ordered(all) {
      forall a, b | a in all && b in all ensures InitialsFit(a.name, b.name) {
        var i :| 0 <= i < |all| && all[i] == a;
        var j :| 0 <= j < |all| && all[j] == b;
        if i < j {
          PairExact(a, b);
        } else if j < i {
          BackwardFits(b, a);
        }
      }
    }
    if InitialsOk(all) {
      forall i, j | 0 <= i < j < |all| ensures all[i].SectionName() <= all[j].SectionName() {
        assert all[i] in all && all[j] in all;
        PairExact(all[i], all[j]);
      }
    }
  }

  /** Then every page of the list is cut properly. */
  lemma SortedPage(all: seq<Tag>, low: nat, high: nat)
    requires SortedByName(all) && InitialsOk(all) && low <= high <= |all|
    ensures ShortcutRight(all[low..high])
  {
    SortedExact(all);
    OrderedPage(all, low, high);
  }

  /** Capital letters sort before small ones, so the section of "Zed" comes before that of "apple". */
  lemma MixedCaseDisorders()
    ensures var all := [Tag("Zed"), Tag("apple")]; SortedByName(all) && !Ordered(all) && !InitialsOk(all)
  {
    var all := [Tag("Zed"), Tag("apple")];
    assert AtMost("Zed", "apple");
    assert all[0].SectionName() == 'Z' && all[1].SectionName() == 'A';
    SortedExact(all);
  }

  // ---- section indices ----

  datatype Group = Group(name: char, count: nat)
  datatype Index = Index(name: char, index: nat, page: nat)

  predicate Has(groups: seq<Group>, name: char) {
    exists k :: 0 <= k < |groups| && groups[k].name == name
  }

  function Count(all: seq<Tag>, name: char): nat {
    if all == [] then 0 else Count(all[..|all| - 1], name) + (if all[|all| - 1].SectionName() == name then 1 else 0)
  }

  /** The sections that occur, in order, with their numbers of tags. */
  ghost predicate GroupsOf(groups: seq<Group>, all: seq<Tag>) {
    && (forall i, j :: 0 <= i < j < |groups| ==> groups[i].name < groups[j].name)
    && (forall i :: 0 <= i < |groups| ==> groups[i].count == Count(all, groups[i].name) > 0)
    && (forall t :: 0 <= t < |all| ==> Has(groups, all[t].SectionName()))
  }

  function Before(groups: seq<Group>, i: nat): nat
    requires i <= |groups|
  {
    if i == 0 then 0 else Before(groups, i - 1) + groups[i - 1].count
  }

  /** Pages are counted from one. */
  function PageOf(index: nat, pageSize: nat): nat
    requires pageSize > 0
  {
    index / pageSize + 1
  }

  /** The page holds the position. */
  predicate Shows(page: nat, pageSize: nat, p: nat) {
    page >= 1 && pageSize * (page - 1) <= p < pageSize * (page - 1) + pageSize
  }

  function LastPage(total: nat, pageSize: nat): nat
    requires pageSize > 0
  {
    total / pageSize + 1
  }

  function IndexAt(groups: seq<Group>, i: nat, pageSize: nat): Index
    requires i < |groups| && pageSize > 0
  {
    Index(groups[i].name, Before(groups, i), PageOf(Before(groups, i), pageSize))
  }

  method SectionIndices(groups: seq<Group>, pageSize: nat) returns (indices: seq<Index>)
    requires pageSize > 0
    ensures |indices| == |groups|
    ensures forall i :: 0 <= i < |groups| ==>
              indices[i] == IndexAt(groups, i, pageSize)
  {
    indices := [];
    var index := 0;
    for i := 0 to |groups|
      invariant |indices| == i && index == Before(groups, i)
      invariant forall k :: 0 <= k < i ==>
                  indices[k] == IndexAt(groups, k, pageSize)
    {
      indices := indices + [Index(groups[i].name, index, PageOf(index, pageSize))];
      index := index + groups[i].count;
    }
  }

  /** Tags of sections before the i-th group. */
  function Smaller(all: seq<Tag>, name: char): nat {
    if all == [] then 0 else Smaller(all[..|all| - 1], name) + (if all[|all| - 1].SectionName() < name then 1 else 0)
  }

  /** The counts of the first i groups add up to the number of tags whose section is one of them. */
  function Listed(all: seq<Tag>, groups: seq<Group>, i: nat): nat
    requires i <= |groups|
  {
    if all == [] then 0
    else Listed(all[..|all| - 1], groups, i)
         + (if Has(groups[..i], all[|all| - 1].SectionName()) then 1 else 0)
  }

  predicate Ascending(groups: seq<Group>) {
    forall i, j :: 0 <= i < j < |groups| ==> groups[i].name < groups[j].name
  }

  lemma HasNext(groups: seq<Group>, i: nat, name: char)
    requires i < |groups| && Ascending(groups)
    ensures Has(groups[..i + 1], name) <==> Has(groups[..i], name) || groups[i].name == name
    ensures Has(groups[..i], name) ==> groups[i].name != name
  {
    if Has(groups[..i], name) {
      var k :| 0 <= k < i && groups[..i][k].name == name;
      assert groups[..i + 1][k].name == name;
    }
    if groups[i].name == name { assert groups[..i + 1][i].name == name; }
    if Has(groups[..i + 1], name) && groups[i].name != name {
      var k :| 0 <= k < i + 1 && groups[..i + 1][k].name == name;
      assert groups[..i][k].name == name;
    }
  }

  lemma HasSmaller(groups: seq<Group>, i: nat, name: char)
    requires i < |groups| && Ascending(groups) && Has(groups, name)
    ensures Has(groups[..i], name) <==> name < groups[i].name
  {
    var k :| 0 <= k < |groups| && groups[k].name == name;
    if k < i { assert groups[..i][k].name == name; }
    if Has(groups[..i], name) {
      var m :| 0 <= m < i && groups[..i][m].name == name;
    }
  }

  lemma {:induction false} ListedNext(all: seq<Tag>, groups: seq<Group>, i: nat)
    requires i < |groups| && Ascending(groups)
    ensures Listed(all, groups, i + 1) == Listed(all, groups, i) + Count(all, groups[i].name)
  {
    if all != [] {
      ListedNext(all[..|all| - 1], groups, i);
      HasNext(groups, i, all[|all| - 1].SectionName());
    }
  }

  lemma {:induction false} ListedNone(all: seq<Tag>, groups: seq<Group>)
    ensures Listed(all, groups, 0) == 0
  {
    if all != [] { ListedNone(all[..|all| - 1], groups); }
  }

  lemma {:induction false} BeforeIsListed(all: seq<Tag>, groups: seq<Group>, i: nat)
    requires i <= |groups| && GroupsOf(groups, all)
    ensures Before(groups, i) == Listed(all, groups, i)
  {
    if i == 0 {
      ListedNone(all, groups);
    } else {
      BeforeIsListed(all, groups, i - 1);
      ListedNext(all, groups, i - 1);
    }
  }

  lemma {:induction false} ListedIsSmaller(part: seq<Tag>, groups: seq<Group>, i: nat)
    requires i < |groups| && Ascending(groups)
    requires forall t :: 0 <= t < |part| ==> Has(groups, part[t].SectionName())
    ensures Listed(part, groups, i) == Smaller(part, groups[i].name)
  {
    if part != [] {
      var n := |part| - 1;
      forall t | 0 <= t < n ensures Has(groups, part[..n][t].SectionName()) {
        assert part[..n][t] == part[t];
      }
      ListedIsSmaller(part[..n], groups, i);
      HasSmaller(groups, i, part[n].SectionName());
    }
  }

  /** In an ordered list the number of tags of smaller sections is a first position. */
  lemma {:induction false} SmallerIsFirst(all: seq<Tag>, name: char)
    requires Ordered(all)
    ensures Smaller(all, name) <= |all|
    ensures forall t :: 0 <= t < |all| ==> (all[t].SectionName() < name <==> t < Smaller(all, name))
  {
    if all != [] {
      var n := |all| - 1;
      SmallerIsFirst(all[..n], name);
    }
  }

  lemma {:induction false} CountedOccurs(all: seq<Tag>, name: char)
    requires Count(all, name) > 0
    ensures exists t :: 0 <= t < |all| && all[t].SectionName() == name
  {
    var n := |all| - 1;
    if all[n].SectionName() != name {
      CountedOccurs(all[..n], name);
      var t :| 0 <= t < n && all[..n][t].SectionName() == name;
      assert all[t].SectionName() == name;
    }
  }

  predicate FirstOf(all: seq<Tag>, name: char, p: nat) {
    p < |all| && all[p].SectionName() == name && forall t :: 0 <= t < p ==> all[t].SectionName() != name
  }

  lemma FirstInOrder(all: seq<Tag>, name: char)
    requires Ordered(all) && Count(all, name) > 0
    ensures FirstOf(all, name, Smaller(all, name))
  {
    SmallerIsFirst(all, name);
    CountedOccurs(all, name);
    var t :| 0 <= t < |all| && all[t].SectionName() == name;
  }

  lemma {:induction false} AllSmaller(all: seq<Tag>, name: char)
    requires forall t :: 0 <= t < |all| ==> all[t].SectionName() < name
    ensures Smaller(all, name) == |all|
  {
    if all != [] { AllSmaller(all[..|all| - 1], name); }
  }

  /** If the first tags are the smaller ones and there are no more of them, the others are not smaller. */
  lemma {:induction false} NoMoreSmaller(all: seq<Tag>, name: char, p: nat)
    requires p <= |all| && Smaller(all, name) == p && forall t :: 0 <= t < p ==> all[t].SectionName() < name
    ensures forall t :: p <= t < |all| ==> all[t].SectionName() >= name
  {
    if p < |all| {
      var n := |all| - 1;
      AtLeastSmaller(all[..n], name, p);
      NoMoreSmaller(all[..n], name, p);
    }
  }

  lemma {:induction false} AtLeastSmaller(all: seq<Tag>, name: char, p: nat)
    requires p <= |all| && forall t :: 0 <= t < p ==> all[t].SectionName() < name
    ensures Smaller(all, name) >= p
  {
    if p == |all| {
      AllSmaller(all, name);
    } else {
      AtLeastSmaller(all[..|all| - 1], name, p);
    }
  }

  /** The index of every section is its first position. */
  ghost predicate FirstPositions(all: seq<Tag>, groups: seq<Group>) {
    forall i :: 0 <= i < |groups| ==> FirstOf(all, groups[i].name, Before(groups, i))
  }

  lemma GroupOf(all: seq<Tag>, groups: seq<Group>, t: nat) returns (i: nat)
    requires GroupsOf(groups, all) && t < |all|
    ensures i < |groups| && groups[i].name == all[t].SectionName()
  {
    assert Has(groups, all[t].SectionName());
    i :| 0 <= i < |groups| && groups[i].name == all[t].SectionName();
  }

  lemma {:induction false} BeforeGrows(groups: seq<Group>, i: nat, j: nat)
    requires i <= j <= |groups|
    ensures Before(groups, i) <= Before(groups, j)
  {
    if i < j { BeforeGrows(groups, i, j - 1); }
  }

  /** Then in front of a section stand only tags of smaller ones. */
  lemma SmallerInFront(all: seq<Tag>, groups: seq<Group>, i: nat, t: nat)
    requires GroupsOf(groups, all) && FirstPositions(all, groups) && i < |groups| && t < |all| && t < Before(groups, i)
    ensures all[t].SectionName() < groups[i].name
  {
    var k := GroupOf(all, groups, t);
    assert FirstOf(all, groups[k].name, Before(groups, k));
    if i <= k { BeforeGrows(groups, i, k); }
  }

  lemma FrontIsSmaller(all: seq<Tag>, groups: seq<Group>, i: nat)
    requires GroupsOf(groups, all) && FirstPositions(all, groups) && i < |groups|
    ensures forall t :: 0 <= t < |all| ==> (all[t].SectionName() < groups[i].name <==> t < Before(groups, i))
  {
    var p := Before(groups, i);
    BeforeIsListed(all, groups, i);
    ListedIsSmaller(all, groups, i);
    assert FirstOf(all, groups[i].name, p);
    forall t | 0 <= t < p ensures all[t].SectionName() < groups[i].name { SmallerInFront(all, groups, i, t); }
    NoMoreSmaller(all, groups[i].name, p);
  }

  /** Every index is a first position if and only if the list is ordered by section. */
  lemma IndicesExact(all: seq<Tag>, groups: seq<Group>)
    requires GroupsOf(groups, all)
    ensures FirstPositions(all, groups) <==> Ordered(all)
  {
    if Ordered(all) {
      forall i | 0 <= i < |groups| ensures FirstOf(all, groups[i].name, Before(groups, i)) { IndexIsFirst(all, groups, i); }
    }
    if FirstPositions(all, groups) {
      forall i, j | 0 <= i < j < |all| ensures all[i].SectionName() <= all[j].SectionName() {
        var g := GroupOf(all, groups, i);
        FrontIsSmaller(all, groups, g);
      }
    }
  }

  /** For the list the database delivers, sorted by name: every index is a first position if and only if the initials
      fit. */
  lemma SortedIndicesExact(all: seq<Tag>, groups: seq<Group>)
    requires GroupsOf(groups, all) && SortedByName(all)
    ensures FirstPositions(all, groups) <==> InitialsOk(all)
  {
    IndicesExact(all, groups);
    SortedExact(all);
  }

  /** The page of a position shows it, and no position lies behind the last page. */
  lemma PageShows(p: nat, pageSize: nat, total: nat)
    requires pageSize > 0 && p < total
    ensures Shows(PageOf(p, pageSize), pageSize, p)
    ensures PageOf(p, pageSize) <= LastPage(total, pageSize)
  {
    Arithmetic.MulGap(pageSize, total / pageSize, p / pageSize);
  }

  /** The last page is the one on which the next tag would stand, so it shows nothing exactly if the pages before it are full. */
  lemma LastPageExact(total: nat, pageSize: nat)
    requires pageSize > 0
    ensures Shows(LastPage(total, pageSize), pageSize, total)
    ensures (exists p: nat :: p < total && Shows(LastPage(total, pageSize), pageSize, p)) <==> total % pageSize != 0
  {
    var first := pageSize * (total / pageSize);
    assert total == first + total % pageSize;
    if total % pageSize != 0 { assert Shows(LastPage(total, pageSize), pageSize, first); }
  }

  /** In a list ordered by section every index is the first position of its section, and its page, counted from one,
      shows that position and is not behind the last page. */
  lemma IndicesAreFirst(all: seq<Tag>, groups: seq<Group>, i: nat, pageSize: nat)
    requires GroupsOf(groups, all) && Ordered(all) && i < |groups| && pageSize > 0
    ensures var p := Before(groups, i);
            && FirstOf(all, groups[i].name, p)
            && Shows(PageOf(p, pageSize), pageSize, p)
            && PageOf(p, pageSize) <= LastPage(|all|, pageSize)
  {
    IndexIsFirst(all, groups, i);
    PageShows(Before(groups, i), pageSize, |all|);
  }

  lemma IndexIsFirst(all: seq<Tag>, groups: seq<Group>, i: nat)
    requires GroupsOf(groups, all) && Ordered(all) && i < |groups|
    ensures FirstOf(all, groups[i].name, Before(groups, i))
  {
    BeforeIsListed(all, groups, i);
    ListedIsSmaller(all, groups, i);
    FirstInOrder(all, groups[i].name);
  }
}
