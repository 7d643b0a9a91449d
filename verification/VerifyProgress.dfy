/** The three in-flight lists of a verify task. */
module VerifyProgress {

  datatype Lists = Lists(running: seq<string>, waitFixing: seq<string>, fixing: seq<string>)

  /** The list without the first occurrence of id. */
  function Without(list: seq<string>, id: string): seq<string> {
    if list == [] then []
    else if list[0] == id then list[1..]
    else [list[0]] + Without(list[1..], id)
  }

  function Started(l: Lists, id: string): Lists {
    l.(running := l.running + [id])
  }

  function MovedToWait(l: Lists, id: string): Lists {
    l.(running := Without(l.running, id), waitFixing := l.waitFixing + [id])
  }

  function MovedToFix(l: Lists, id: string): Lists {
    l.(waitFixing := Without(l.waitFixing, id), fixing := l.fixing + [id])
  }

  /** Only the first list that holds id loses it. */
  function Ended(l: Lists, id: string): Lists {
    if id in l.running then l.(running := Without(l.running, id))
    else if id in l.waitFixing then l.(waitFixing := Without(l.waitFixing, id))
    else l.(fixing := Without(l.fixing, id))
  }

  ghost predicate NoDup(list: seq<string>) {
    forall i, j :: 0 <= i < j < |list| ==> list[i] != list[j]
  }

  lemma {:induction false} WithoutSplit(list: seq<string>, id: string, k: nat)
    requires k < |list| && list[k] == id && id !in list[..k]
    ensures Without(list, id) == list[..k] + list[k + 1..]
  {
    if k > 0 {
      assert list[0] == list[..k][0];
      assert list[1..][..k - 1] == list[..k][1..];
      WithoutSplit(list[1..], id, k - 1);
      assert list[..k] == [list[0]] + list[1..][..k - 1];
    }
  }

  lemma {:induction false} WithoutAbsent(list: seq<string>, id: string)
    requires id !in list
    ensures Without(list, id) == list
  {
    if list != [] {
      WithoutAbsent(list[1..], id);
    }
  }

  /** Removing from a list without duplicates removes exactly that id. */
  lemma {:induction false} WithoutMembers(list: seq<string>, id: string)
    requires NoDup(list)
    ensures NoDup(Without(list, id))
    ensures forall x :: x in Without(list, id) <==> x in list && x != id
  {
    if id !in list {
      WithoutAbsent(list, id);
    } else {
      var k :| 0 <= k < |list| && list[k] == id;
      WithoutSplit(list, id, k);
      var r := list[..k] + list[k + 1..];
      forall x ensures x in r <==> x in list && x != id {
        if x in list && x != id {
          var j :| 0 <= j < |list| && list[j] == x;
          assert r[if j < k then j else j - 1] == x;
        }
      }
    }
  }

  class Progress {
    var running: seq<string>
    var waitFixing: seq<string>
    var fixing: seq<string>

    function Contents(): Lists
      reads this
    {
      Lists(running, waitFixing, fixing)
    }

    constructor ()
      ensures Contents() == Lists([], [], [])
    {
      running, waitFixing, fixing := [], [], [];
    }

    static method Removed(list: seq<string>, id: string) returns (found: bool, r: seq<string>)
      ensures found <==> id in list
      ensures r == Without(list, id)
    {
      for i := 0 to |list|
        invariant id !in list[..i]
      {
        if list[i] == id {
          WithoutSplit(list, id, i);
          return true, list[..i] + list[i + 1..];
        }
      }
      WithoutAbsent(list, id);
      return false, list;
    }

    method Start(id: string)
      modifies this
      ensures Contents() == Started(old(Contents()), id)
    {
      running := running + [id];
    }

    method WaitFix(id: string)
      modifies this
      ensures Contents() == MovedToWait(old(Contents()), id)
    {
      var found;
      found, running := Removed(running, id);
      waitFixing := waitFixing + [id];
    }

    method Fix(id: string)
      modifies this
      ensures Contents() == MovedToFix(old(Contents()), id)
    {
      var found;
      found, waitFixing := Removed(waitFixing, id);
      fixing := fixing + [id];
    }

    method End(id: string)
      modifies this
      ensures Contents() == Ended(old(Contents()), id)
    {
      var found, r := Removed(running, id);
      if found {
        running := r;
        return;
      }
      found, r := Removed(waitFixing, id);
      if found {
        waitFixing := r;
        return;
      }
      found, fixing := Removed(fixing, id);
    }
  }
}
