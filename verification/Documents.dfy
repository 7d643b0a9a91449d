/** Nested documents, dotted-path updates on them, and the deep merge that such an update should mean. */
module Documents {
  import opened Sequences

  /** A value of an update document: null, anything that is not a document, or a nested document. */
  datatype Value = Null | Leaf(raw: string) | Doc(fields: map<string, Value>)

  /** What a document holds at some place. */
  datatype Cell = Missing | Here(v: Value)

  datatype Act = Put(raw: string) | Drop

  /** One entry of $set or $unset, its key split at the dots. */
  datatype Op = Op(path: seq<string>, act: Act)

  /** An update fails as a whole when a $set path crosses something that is not a document. */
  datatype Res = Conflict | At(cell: Cell)

  function Field(m: map<string, Value>, k: string): Cell {
    if k in m then Here(m[k]) else Missing
  }

  function WithField(m: map<string, Value>, k: string, c: Cell): map<string, Value> {
    match c
    case Missing => m - {k}
    case Here(v) => m[k := v]
  }

  lemma SameFields(a: map<string, Value>, b: map<string, Value>)
    requires forall k :: Field(a, k) == Field(b, k)
    ensures a == b
  {
    forall k ensures k in a <==> k in b { assert Field(a, k) == Field(b, k); }
    forall k | k in a ensures a[k] == b[k] { assert Field(a, k) == Field(b, k); }
  }

  /** $set creates the documents it walks through, $unset of something missing does nothing. */
  function ApplyAt(c: Cell, path: seq<string>, act: Act): Res
    decreases |path|
  {
    if path == [] then At(if act.Put? then Here(Leaf(act.raw)) else Missing)
    else if c.Here? && c.v.Doc? then
      match ApplyAt(Field(c.v.fields, path[0]), path[1..], act)
      case Conflict => Conflict
      case At(f) => At(Here(Doc(WithField(c.v.fields, path[0], f))))
    else if act.Drop? then At(c)
    else if c.Missing? then
      match ApplyAt(Missing, path[1..], act)
      case Conflict => Conflict
      case At(f) => At(Here(Doc(WithField(map[], path[0], f))))
    else Conflict
  }

  function ApplyAll(c: Cell, ops: seq<Op>): Res
    decreases |ops|
  {
    if ops == [] then At(c)
    else
      match ApplyAt(c, ops[0].path, ops[0].act)
      case Conflict => Conflict
      case At(c1) => ApplyAll(c1, ops[1..])
  }

  // ---- the update that a document compiles to ----

  function OpsOf(v: Value): set<Op> {
    match v
    case Null => {Op([], Drop)}
    case Leaf(raw) => {Op([], Put(raw))}
    case Doc(m) => set k, o | k in m && o in OpsOf(m[k]) :: Op([k] + o.path, o.act)
  }

  ghost predicate NoDup(ops: seq<Op>) {
    forall i, j :: 0 <= i < j < |ops| ==> ops[i] != ops[j]
  }

  /** ops lists the update of v, in any order. */
  ghost predicate Lists(ops: seq<Op>, v: Value) {
    NoDup(ops) && forall o :: o in ops <==> o in OpsOf(v)
  }

  /** No path of the update is a prefix of another: one path per leaf, $set and $unset disjoint. */
  lemma {:induction false} PrefixFree(v: Value, a: Op, b: Op)
    requires a in OpsOf(v) && b in OpsOf(v) && a.path <= b.path
    ensures a == b
    decreases v
  {
    if v.Doc? {
      var k, o :| k in v.fields && o in OpsOf(v.fields[k]) && a == Op([k] + o.path, o.act);
      var l, p :| l in v.fields && p in OpsOf(v.fields[l]) && b == Op([l] + p.path, p.act);
      assert a.path[0] == k && b.path[0] == l;
      assert o.path == a.path[1..] && p.path == b.path[1..];
      PrefixFree(v.fields[k], o, p);
    }
  }

  // ---- the deep merge ----

  predicate HasLeaf(v: Value) {
    match v
    case Null => false
    case Leaf(_) => true
    case Doc(m) => exists k :: k in m && HasLeaf(m[k])
  }

  /** Merging a value into what is there: null removes, a leaf replaces, a document merges field by field. */
  function Merge(c: Cell, v: Value): Res
    decreases v, 1
  {
    match v
    case Null => At(Missing)
    case Leaf(raw) => At(Here(v))
    case Doc(m) =>
      if c.Here? && c.v.Doc? then MergeFields(c.v.fields, v)
      else if !HasLeaf(v) then At(c)
      else if c.Missing? then MergeFields(map[], v)
      else Conflict
  }

  function MergeField(base: map<string, Value>, v: Value, k: string): Res
    requires v.Doc?
    decreases v, 0, 0
  {
    if k in v.fields then Merge(Field(base, k), v.fields[k]) else At(Field(base, k))
  }

  function MergeFields(base: map<string, Value>, v: Value): Res
    requires v.Doc?
    decreases v, 0, 1
  {
    if exists k :: k in v.fields && MergeField(base, v, k).Conflict? then Conflict
    else At(Here(Doc(map k | k in base.Keys + v.fields.Keys && MergeField(base, v, k).At? && MergeField(base, v, k).cell.Here?
                            :: MergeField(base, v, k).cell.v)))
  }

  // ---- applying an update field by field ----

  /** The operations below field k, with k taken off their paths. */
  function Tails(ops: seq<Op>, k: string): seq<Op> {
    if ops == [] then []
    else if ops[0].path != [] && ops[0].path[0] == k then [Op(ops[0].path[1..], ops[0].act)] + Tails(ops[1..], k)
    else Tails(ops[1..], k)
  }

  ghost predicate Below(ops: seq<Op>) {
    forall i :: 0 <= i < |ops| ==> ops[i].path != []
  }

  /** What a document becomes is decided field by field, by the operations below that field in their order. */
  ghost predicate Fieldwise(m: map<string, Value>, ops: seq<Op>, r: Res) {
    match r
    case Conflict => exists k :: ApplyAll(Field(m, k), Tails(ops, k)).Conflict?
    case At(c) => c.Here? && c.v.Doc? && forall k :: ApplyAll(Field(m, k), Tails(ops, k)) == At(Field(c.v.fields, k))
  }

  lemma {:induction false} AppliesFieldwise(m: map<string, Value>, ops: seq<Op>)
    requires Below(ops)
    ensures Fieldwise(m, ops, ApplyAll(Here(Doc(m)), ops))
    decreases |ops|
  {
    if ops != [] {
      var k0 := ops[0].path[0];
      var first := Op(ops[0].path[1..], ops[0].act);
      var rest := ops[1..];
      assert Tails(ops, k0) == [first] + Tails(rest, k0);
      assert ([first] + Tails(rest, k0))[1..] == Tails(rest, k0);
      match ApplyAt(Field(m, k0), first.path, first.act)
      case Conflict => assert ApplyAll(Field(m, k0), Tails(ops, k0)).Conflict?;
      case At(f) =>
        var m1 := WithField(m, k0, f);
        AppliesFieldwise(m1, rest);
        forall k ensures ApplyAll(Field(m, k), Tails(ops, k)) == ApplyAll(Field(m1, k), Tails(rest, k)) {
          if k != k0 { assert Tails(ops, k) == Tails(rest, k); }
        }
        var r := ApplyAll(Here(Doc(m)), ops);
        assert r == ApplyAll(Here(Doc(m1)), rest);
        if r.Conflict? {
          var k :| ApplyAll(Field(m1, k), Tails(rest, k)).Conflict?;
          assert ApplyAll(Field(m, k), Tails(ops, k)).Conflict?;
        }
    }
  }

  ghost predicate Puts(ops: seq<Op>) {
    exists i :: 0 <= i < |ops| && ops[i].act.Put?
  }

  lemma PutsFirst(ops: seq<Op>)
    requires ops != []
    ensures Puts(ops) <==> ops[0].act.Put? || Puts(ops[1..])
  {
    if Puts(ops) && !ops[0].act.Put? {
      var i :| 0 <= i < |ops| && ops[i].act.Put?;
      assert ops[1..][i - 1].act.Put?;
    }
    if Puts(ops[1..]) {
      var i :| 0 <= i < |ops[1..]| && ops[1..][i].act.Put?;
      assert ops[i + 1].act.Put?;
    }
  }

  /** Below something missing, a $set starts from an empty document; without one nothing is created. */
  lemma {:induction false} AppliesToMissing(ops: seq<Op>)
    requires Below(ops)
    ensures ApplyAll(Missing, ops) == if Puts(ops) then ApplyAll(Here(Doc(map[])), ops) else At(Missing)
    ensures !Puts(ops) ==> ApplyAll(Here(Doc(map[])), ops) == At(Here(Doc(map[])))
  {
    if ops != [] {
      PutsFirst(ops);
      AppliesToMissing(ops[1..]);
      if ops[0].act.Drop? {
        DropsNothing(ops[0].path);
      }
    }
  }

  lemma DropsNothing(path: seq<string>)
    requires path != []
    ensures ApplyAt(Here(Doc(map[])), path, Drop) == At(Here(Doc(map[])))
  {
    assert ApplyAt(Missing, path[1..], Drop) == At(Missing);
    var none: map<string, Value> := map[];
    assert none - {path[0]} == none;
  }

  /** Below something that is not a document, a $set fails and an $unset does nothing. */
  lemma {:induction false} AppliesToScalar(c: Cell, ops: seq<Op>)
    requires c.Here? && !c.v.Doc? && Below(ops)
    ensures ApplyAll(c, ops) == if Puts(ops) then Conflict else At(c)
  {
    if ops != [] {
      PutsFirst(ops);
      AppliesToScalar(c, ops[1..]);
    }
  }

  // ---- an update in any order is the merge ----

  lemma {:induction false} TailsMembers(ops: seq<Op>, k: string, o: Op)
    ensures o in Tails(ops, k) <==> Op([k] + o.path, o.act) in ops
  {
    if ops != [] {
      TailsMembers(ops[1..], k, o);
      var p := Op([k] + o.path, o.act);
      assert p in ops <==> p == ops[0] || p in ops[1..];
      if p == ops[0] {
        assert ops[0].path[0] == k && ops[0].path[1..] == o.path;
      }
      if ops[0].path != [] && ops[0].path[0] == k {
        assert [k] + ops[0].path[1..] == ops[0].path;
      }
    }
  }

  lemma {:induction false} TailsNoDup(ops: seq<Op>, k: string)
    requires NoDup(ops)
    ensures NoDup(Tails(ops, k))
  {
    if ops != [] {
      TailsNoDup(ops[1..], k);
      if ops[0].path != [] && ops[0].path[0] == k {
        var first := Op(ops[0].path[1..], ops[0].act);
        assert [k] + ops[0].path[1..] == ops[0].path;
        TailsMembers(ops[1..], k, first);
        assert Op([k] + first.path, first.act) == ops[0];
        assert ops[0] !in ops[1..];
      }
    }
  }

  lemma TailsList(ops: seq<Op>, v: Value, k: string)
    requires v.Doc? && Lists(ops, v)
    ensures k in v.fields ==> Lists(Tails(ops, k), v.fields[k])
    ensures k !in v.fields ==> Tails(ops, k) == []
  {
    TailsNoDup(ops, k);
    forall o ensures o in Tails(ops, k) <==> k in v.fields && o in OpsOf(v.fields[k]) {
      TailsMembers(ops, k, o);
      var p := Op([k] + o.path, o.act);
      if p in OpsOf(v) {
        var l, q :| l in v.fields && q in OpsOf(v.fields[l]) && p == Op([l] + q.path, q.act);
        assert p.path[0] == l && p.path[1..] == q.path == o.path;
        assert q == o;
      }
    }
    NonEmptyHasMember(Tails(ops, k));
  }

  lemma {:induction false} HasLeafPuts(v: Value)
    ensures HasLeaf(v) <==> exists o :: o in OpsOf(v) && o.act.Put?
  {
    match v
    case Null =>
    case Leaf(raw) => assert Op([], Put(raw)) in OpsOf(v);
    case Doc(m) =>
      if HasLeaf(v) {
        var k :| k in m && HasLeaf(m[k]);
        HasLeafPuts(m[k]);
        var o :| o in OpsOf(m[k]) && o.act.Put?;
        assert Op([k] + o.path, o.act) in OpsOf(v);
      }
      if exists o :: o in OpsOf(v) && o.act.Put? {
        var o :| o in OpsOf(v) && o.act.Put?;
        var k, q :| k in m && q in OpsOf(m[k]) && o == Op([k] + q.path, q.act);
        HasLeafPuts(m[k]);
      }
  }

  lemma PutsIffLeaf(ops: seq<Op>, v: Value)
    requires Lists(ops, v)
    ensures Puts(ops) <==> HasLeaf(v)
  {
    HasLeafPuts(v);
    if Puts(ops) {
      var i :| 0 <= i < |ops| && ops[i].act.Put?;
      assert ops[i] in ops;
    }
    if HasLeaf(v) {
      var o :| o in OpsOf(v) && o.act.Put?;
      assert o in ops;
      var i :| 0 <= i < |ops| && ops[i] == o;
    }
  }

  lemma SingleOp(ops: seq<Op>, o: Op)
    requires NoDup(ops) && forall p :: p in ops <==> p == o
    ensures ops == [o]
  {
    assert o in ops;
    assert forall i :: 0 <= i < |ops| ==> ops[i] in ops;
    if |ops| >= 2 { TwoEqual(ops); }
  }

  lemma TwoEqual(ops: seq<Op>)
    requires |ops| >= 2 && ops[0] == ops[1]
    ensures !NoDup(ops)
  {
  }

  /** Applied in whatever order the entries come, the compiled update of v does what merging v does. */
  lemma {:induction false} UpdateIsMerge(c: Cell, v: Value, ops: seq<Op>)
    requires Lists(ops, v)
    ensures ApplyAll(c, ops) == Merge(c, v)
    decreases v, 1
  {
    match v
    case Null => SingleOp(ops, Op([], Drop));
    case Leaf(raw) => SingleOp(ops, Op([], Put(raw)));
    case Doc(m) =>
      assert Below(ops) by {
        forall i | 0 <= i < |ops| ensures ops[i].path != [] { assert ops[i] in OpsOf(v); }
      }
      PutsIffLeaf(ops, v);
      if c.Here? && c.v.Doc? {
        FieldsMerge(c.v.fields, v, ops);
      } else if c.Missing? {
        AppliesToMissing(ops);
        FieldsMerge(map[], v, ops);
      } else {
        AppliesToScalar(c, ops);
      }
  }

  lemma {:induction false} FieldsMerge(base: map<string, Value>, v: Value, ops: seq<Op>)
    requires v.Doc? && Lists(ops, v) && Below(ops)
    ensures ApplyAll(Here(Doc(base)), ops) == MergeFields(base, v)
    decreases v, 0
  {
    var r := ApplyAll(Here(Doc(base)), ops);
    AppliesFieldwise(base, ops);
    forall k ensures ApplyAll(Field(base, k), Tails(ops, k)) == MergeField(base, v, k) {
      TailsList(ops, v, k);
      if k in v.fields { UpdateIsMerge(Field(base, k), v.fields[k], Tails(ops, k)); }
    }
    if r.Conflict? {
      var k :| ApplyAll(Field(base, k), Tails(ops, k)).Conflict?;
      assert k in v.fields && MergeField(base, v, k).Conflict?;
    } else {
      var got := r.cell.v.fields;
      forall k ensures MergeField(base, v, k) == At(Field(got, k)) {
        assert ApplyAll(Field(base, k), Tails(ops, k)) == At(Field(got, k));
      }
      assert !exists k :: k in v.fields && MergeField(base, v, k).Conflict?;
      assert MergeFields(base, v).At?;
      var want := MergeFields(base, v).cell.v.fields;
      forall k ensures Field(got, k) == Field(want, k) {
        assert MergeField(base, v, k) == At(Field(got, k));
      }
      SameFields(got, want);
    }
  }

  // ---- reading the merge back ----

  function Get(c: Cell, path: seq<string>): Cell
    decreases |path|
  {
    if path == [] || c.Missing? then c
    else if c.v.Doc? then Get(Field(c.v.fields, path[0]), path[1..])
    else Missing
  }

  /** What the entry of v at exactly this path, if there is one, says should be read there. */
  ghost predicate ReadsEntry(v: Value, path: seq<string>, got: Cell) {
    forall o :: o in OpsOf(v) && o.path == path ==> got == if o.act.Put? then Here(Leaf(o.act.raw)) else Missing
  }

  /** No entry of v lies on the path or below it. */
  ghost predicate Untouched(v: Value, path: seq<string>) {
    forall o :: o in OpsOf(v) ==> !(o.path <= path) && !(path <= o.path)
  }

  /** Path by path: a leaf of v is read back, a null of v is gone, and a path that no entry of v touches reads as
      before the merge. */
  lemma {:induction false} MergeReadsBack(c: Cell, v: Value, path: seq<string>)
    requires Merge(c, v).At?
    ensures ReadsEntry(v, path, Get(Merge(c, v).cell, path))
    ensures Untouched(v, path) ==> Get(Merge(c, v).cell, path) == Get(c, path)
    decreases v, 1
  {
    if OpsOf(v) == {} {
      UpdateIsMerge(c, v, []);
    } else if path == [] {
      var o :| o in OpsOf(v);
      assert path <= o.path;
    } else if v.Doc? {
      EntriesBelow(v, path[0], path[1..]);
      assert path == [path[0]] + path[1..];
      if (c.Here? && c.v.Doc?) || HasLeaf(v) {
        MergeReadsBelow(c, v, path);
      } else {
        HasLeafPuts(v);
      }
    } else {
      var o :| o in OpsOf(v);
      assert o.path == [] <= path;
    }
  }

  /** A merge that reaches the fields of a document, read below its first field. */
  lemma {:induction false} MergeReadsBelow(c: Cell, v: Value, path: seq<string>)
    requires Merge(c, v).At? && v.Doc? && path != [] && ((c.Here? && c.v.Doc?) || HasLeaf(v))
    ensures path[0] in v.fields ==> ReadsEntry(v.fields[path[0]], path[1..], Get(Merge(c, v).cell, path))
    ensures path[0] in v.fields && Untouched(v.fields[path[0]], path[1..]) ==> Get(Merge(c, v).cell, path) == Get(c, path)
    ensures path[0] !in v.fields ==> Get(Merge(c, v).cell, path) == Get(c, path)
    decreases v, 0
  {
    var k, rest := path[0], path[1..];
    var base := if c.Here? && c.v.Doc? then c.v.fields else map[];
    var r := MergeFields(base, v);
    assert Merge(c, v) == r;
    assert k in v.fields ==> MergeField(base, v, k).At?;
    assert Field(r.cell.v.fields, k) == MergeField(base, v, k).cell;
    if k in v.fields {
      MergeReadsBack(Field(base, k), v.fields[k], rest);
    }
  }

  lemma EntriesBelow(v: Value, k: string, rest: seq<string>)
    requires v.Doc?
    ensures k in v.fields ==> forall got :: ReadsEntry(v.fields[k], rest, got) ==> ReadsEntry(v, [k] + rest, got)
    ensures k !in v.fields ==> forall got :: ReadsEntry(v, [k] + rest, got)
    ensures k in v.fields && Untouched(v, [k] + rest) ==> Untouched(v.fields[k], rest)
  {
    forall o | o in OpsOf(v) && o.path == [k] + rest
      ensures k in v.fields && Op(rest, o.act) in OpsOf(v.fields[k])
    {
      var l, q :| l in v.fields && q in OpsOf(v.fields[l]) && o == Op([l] + q.path, q.act);
      assert o.path[0] == l && o.path[1..] == q.path == rest;
      assert q == Op(rest, o.act);
    }
    if k in v.fields && Untouched(v, [k] + rest) {
      forall o | o in OpsOf(v.fields[k]) ensures !(o.path <= rest) && !(rest <= o.path) {
        var p := Op([k] + o.path, o.act);
        assert p in OpsOf(v);
        PrefixCons(k, o.path, rest);
        PrefixCons(k, rest, o.path);
      }
    }
  }

  lemma PrefixCons(k: string, a: seq<string>, b: seq<string>)
    ensures a <= b <==> [k] + a <= [k] + b
  {
    assert ([k] + a)[1..] == a && ([k] + b)[1..] == b;
  }
}
