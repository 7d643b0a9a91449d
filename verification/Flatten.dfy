/** Compiling a nested update document to the dotted keys of $set and $unset. */
module Flatten {
  import opened Documents
  import Text

  function Extend(prefix: string, key: string): string {
    if prefix == "" then key else prefix + "." + key
  }

  /** The dotted key of a path below a prefix. */
  function Dotted(prefix: string, path: seq<string>): string
    decreases |path|
  {
    if path == [] then prefix else Dotted(Extend(prefix, path[0]), path[1..])
  }

  ghost predicate Emits(prefix: string, ops: set<Op>, key: string, act: Act) {
    exists o :: o in ops && Dotted(prefix, o.path) == key && o.act == act
  }

  /** From s0, u0 to s1, u1 everything ops emits below prefix has been added, and nothing else.
      Where two entries share a dotted key, one of them is kept. */
  ghost predicate Added(prefix: string, ops: set<Op>, s0: map<string, string>, u0: set<string>,
                        s1: map<string, string>, u1: set<string>)
  {
    && (forall k :: k in u1 <==> k in u0 || Emits(prefix, ops, k, Drop))
    && (forall k :: k in s1 ==> Emits(prefix, ops, k, Put(s1[k])) || (k in s0 && s1[k] == s0[k]))
    && (forall k :: k in s0 ==> k in s1)
    && (forall o :: o in ops && o.act.Put? ==> Dotted(prefix, o.path) in s1)
  }

  function Lift(key: string, ops: set<Op>): set<Op> {
    set o | o in ops :: Op([key] + o.path, o.act)
  }

  function OpsOfSome(doc: map<string, Value>, keys: set<string>): set<Op> {
    set k, o | k in doc && k in keys && o in OpsOf(doc[k]) :: Op([k] + o.path, o.act)
  }

  lemma EmitsLifted(prefix: string, key: string, ops: set<Op>, k: string, act: Act)
    ensures Emits(prefix, Lift(key, ops), k, act) <==> Emits(Extend(prefix, key), ops, k, act)
  {
    if Emits(prefix, Lift(key, ops), k, act) {
      var p :| p in Lift(key, ops) && Dotted(prefix, p.path) == k && p.act == act;
      var o :| o in ops && p == Op([key] + o.path, o.act);
      assert p.path[1..] == o.path;
    }
    if Emits(Extend(prefix, key), ops, k, act) {
      var o :| o in ops && Dotted(Extend(prefix, key), o.path) == k && o.act == act;
      var p := Op([key] + o.path, o.act);
      assert p in Lift(key, ops) && p.path[1..] == o.path;
    }
  }

  lemma EmitsUnion(prefix: string, a: set<Op>, b: set<Op>, k: string, act: Act)
    ensures Emits(prefix, a + b, k, act) <==> Emits(prefix, a, k, act) || Emits(prefix, b, k, act)
  {
  }

  /** Adding the entries of one more field. */
  lemma AddedField(prefix: string, key: string, a: set<Op>, b: set<Op>, s0: map<string, string>, u0: set<string>,
                   s1: map<string, string>, u1: set<string>, s2: map<string, string>, u2: set<string>)
    requires Added(prefix, a, s0, u0, s1, u1) && Added(Extend(prefix, key), b, s1, u1, s2, u2)
    ensures Added(prefix, a + Lift(key, b), s0, u0, s2, u2)
  {
    forall k, act ensures Emits(prefix, a + Lift(key, b), k, act) <==>
      Emits(prefix, a, k, act) || Emits(Extend(prefix, key), b, k, act)
    {
      EmitsUnion(prefix, a, Lift(key, b), k, act);
      EmitsLifted(prefix, key, b, k, act);
    }
    forall o | o in a + Lift(key, b) && o.act.Put? ensures Dotted(prefix, o.path) in s2 {
      if o in Lift(key, b) {
        var q :| q in b && o == Op([key] + q.path, q.act);
        assert o.path[1..] == q.path;
      }
    }
  }

  lemma OneMoreField(doc: map<string, Value>, keys: set<string>, key: string)
    requires key in doc
    ensures OpsOfSome(doc, keys + {key}) == OpsOfSome(doc, keys) + Lift(key, OpsOf(doc[key]))
  {
  }

  lemma FieldAdded(prefix: string, doc: map<string, Value>, done: set<string>, key: string, s0: map<string, string>, u0: set<string>,
                   s1: map<string, string>, u1: set<string>, s2: map<string, string>, u2: set<string>)
    requires key in doc && Added(prefix, OpsOfSome(doc, done), s0, u0, s1, u1)
    requires Added(Extend(prefix, key), OpsOf(doc[key]), s1, u1, s2, u2)
    ensures Added(prefix, OpsOfSome(doc, done + {key}), s0, u0, s2, u2)
  {
    AddedField(prefix, key, OpsOfSome(doc, done), OpsOf(doc[key]), s0, u0, s1, u1, s2, u2);
    OneMoreField(doc, done, key);
  }

  // ---- the order of visiting ----

  /** A document with its fields in the order in which they are visited. */
  datatype Visit = Nil | Raw(raw: string) | Into(fields: seq<Field>)
  datatype Field = Field(key: string, visit: Visit)

  datatype Docs = Docs(sets: map<string, string>, unsets: set<string>)

  function Visited(prefix: string, fields: seq<Field>, d: Docs): Docs
    decreases fields, 0
  {
    if fields == [] then d
    else
      var last := |fields| - 1;
      VisitedOne(Extend(prefix, fields[last].key), fields[last].visit, Visited(prefix, fields[..last], d))
  }

  function VisitedOne(fullKey: string, v: Visit, d: Docs): Docs
    decreases v, 1
  {
    match v
    case Nil => d.(unsets := d.unsets + {fullKey})
    case Raw(raw) => d.(sets := d.sets[fullKey := raw])
    case Into(fields) => Visited(fullKey, fields, d)
  }

  /** The fields are those of the document, each once. */
  ghost predicate OrderOf(fields: seq<Field>, doc: map<string, Value>)
    decreases fields, 1
  {
    OrderOfSome(fields, doc, doc.Keys)
  }

  ghost predicate OrderOfSome(fields: seq<Field>, doc: map<string, Value>, keys: set<string>)
    decreases fields, 0
  {
    && (forall i, j :: 0 <= i < j < |fields| ==> fields[i].key != fields[j].key)
    && (forall k :: k in keys <==> exists i :: 0 <= i < |fields| && fields[i].key == k)
    && (forall i :: 0 <= i < |fields| ==> fields[i].key in doc && OrderOfValue(fields[i].visit, doc[fields[i].key]))
  }

  ghost predicate OrderOfValue(v: Visit, value: Value)
    decreases v, 2
  {
    match v
    case Nil => value.Null?
    case Raw(raw) => value == Leaf(raw)
    case Into(fields) => value.Doc? && OrderOf(fields, value.fields)
  }

  lemma OrderNext(fields: seq<Field>, doc: map<string, Value>, keys: set<string>, f: Field)
    requires OrderOfSome(fields, doc, keys) && f.key in doc && f.key !in keys && OrderOfValue(f.visit, doc[f.key])
    ensures OrderOfSome(fields + [f], doc, keys + {f.key})
  {
    var more := fields + [f];
    forall i | 0 <= i < |fields| ensures more[i] == fields[i] && more[i].key in keys {}
    forall k ensures k in keys + {f.key} <==> exists i :: 0 <= i < |more| && more[i].key == k {
      if k in keys {
        var i :| 0 <= i < |fields| && fields[i].key == k;
        assert more[i].key == k;
      }
      if k == f.key { assert more[|fields|].key == k; }
    }
  }

  lemma VisitedNext(prefix: string, fields: seq<Field>, f: Field, d: Docs)
    ensures Visited(prefix, fields + [f], d) == VisitedOne(Extend(prefix, f.key), f.visit, Visited(prefix, fields, d))
  {
    var more := fields + [f];
    assert more[..|fields|] == fields && more[|fields|] == f && |more| - 1 == |fields|;
  }

  class UpdateDocs {
    var setDoc: map<string, string>
    var unsetDoc: set<string>

    constructor ()
      ensures setDoc == map[] && unsetDoc == {}
    {
      setDoc, unsetDoc := map[], {};
    }

    /** Visits the fields in any order. */
    method FlattenBSON(prefix: string, doc: map<string, Value>) returns (ghost order: seq<Field>)
      modifies this
      ensures Added(prefix, OpsOf(Doc(doc)), old(setDoc), old(unsetDoc), setDoc, unsetDoc)
      ensures OrderOf(order, doc) && Docs(setDoc, unsetDoc) == Visited(prefix, order, Docs(old(setDoc), old(unsetDoc)))
      decreases Doc(doc), 0
    {
      var todo := doc.Keys;
      order := [];
      while todo != {}
        invariant todo <= doc.Keys
        invariant Added(prefix, OpsOfSome(doc, doc.Keys - todo), old(setDoc), old(unsetDoc), setDoc, unsetDoc)
        invariant OrderOfSome(order, doc, doc.Keys - todo)
        invariant Docs(setDoc, unsetDoc) == Visited(prefix, order, Docs(old(setDoc), old(unsetDoc)))
      {
        var key :| key in todo;
        ghost var done, s1, u1 := doc.Keys - todo, setDoc, unsetDoc;
        ghost var visit := FlattenField(Extend(prefix, key), doc[key]);
        FieldAdded(prefix, doc, done, key, old(setDoc), old(unsetDoc), s1, u1, setDoc, unsetDoc);
        OrderNext(order, doc, done, Field(key, visit));
        VisitedNext(prefix, order, Field(key, visit), Docs(old(setDoc), old(unsetDoc)));
        order, todo := order + [Field(key, visit)], todo - {key};
        assert doc.Keys - todo == done + {key};
      }
      assert OpsOfSome(doc, doc.Keys - todo) == OpsOf(Doc(doc));
      assert doc.Keys - todo == doc.Keys;
    }

    /** One field, by the kind of its value. */
    method FlattenField(fullKey: string, value: Value) returns (ghost visit: Visit)
      modifies this
      ensures Added(fullKey, OpsOf(value), old(setDoc), old(unsetDoc), setDoc, unsetDoc)
      ensures OrderOfValue(visit, value)
      ensures Docs(setDoc, unsetDoc) == VisitedOne(fullKey, visit, Docs(old(setDoc), old(unsetDoc)))
      decreases value, 1
    {
      AddedScalar(fullKey, value, setDoc, unsetDoc);
      match value {
        case Null => unsetDoc, visit := unsetDoc + {fullKey}, Nil;
        case Leaf(raw) => setDoc, visit := setDoc[fullKey := raw], Raw(raw);
        case Doc(sub) =>
          ghost var inner := FlattenBSON(fullKey, sub);
          visit := Into(inner);
      }
    }
  }

  lemma AddedScalar(key: string, v: Value, s: map<string, string>, u: set<string>)
    ensures v.Null? ==> Added(key, OpsOf(v), s, u, s, u + {key})
    ensures v.Leaf? ==> Added(key, OpsOf(v), s, u, s[key := v.raw], u)
  {
    if !v.Doc? {
      var o := Op([], if v.Leaf? then Put(v.raw) else Drop);
      assert o in OpsOf(v) && Dotted(key, o.path) == key;
    }
  }

  // ---- with keys that are not empty and hold no dot, the dotted keys determine the paths ----

  predicate GoodKey(key: string) {
    key != "" && Text.Free(key, '.')
  }

  predicate WellKeyed(v: Value) {
    v.Doc? ==> forall k :: k in v.fields ==> GoodKey(k) && WellKeyed(v.fields[k])
  }

  predicate GoodPath(path: seq<string>) {
    forall i :: 0 <= i < |path| ==> GoodKey(path[i])
  }

  lemma {:induction false} WellKeyedPaths(v: Value, o: Op)
    requires WellKeyed(v) && o in OpsOf(v)
    ensures GoodPath(o.path)
    decreases v
  {
    if v.Doc? {
      var k, q :| k in v.fields && q in OpsOf(v.fields[k]) && o == Op([k] + q.path, q.act);
      WellKeyedPaths(v.fields[k], q);
    }
  }

  lemma {:induction false} DottedIsJoin(prefix: seq<string>, path: seq<string>)
    requires prefix != [] && GoodPath(prefix) && GoodPath(path)
    ensures Dotted(Text.Join(prefix, '.'), path) == Text.Join(prefix + path, '.')
    decreases |path|
  {
    if path == [] {
      assert prefix + path == prefix;
    } else {
      JoinAppend(prefix, path[0]);
      DottedIsJoin(prefix + [path[0]], path[1..]);
      assert prefix + [path[0]] + path[1..] == prefix + path;
    }
  }

  lemma {:induction false} JoinAppend(segs: seq<string>, s: string)
    requires segs != [] && GoodPath(segs)
    ensures Text.Join(segs, '.') != "" && Text.Join(segs + [s], '.') == Text.Join(segs, '.') + "." + s
    decreases |segs|
  {
    if |segs| == 1 {
      assert (segs + [s])[1..] == [s];
    } else {
      JoinAppend(segs[1..], s);
      assert (segs + [s])[1..] == segs[1..] + [s];
    }
  }

  /** The entries a server sees: each dotted key split at its dots. */
  function Entries(setDoc: map<string, string>, unsetDoc: set<string>): set<Op> {
    (set k | k in setDoc :: Op(Text.Split(k, '.'), Put(setDoc[k]))) + (set k | k in unsetDoc :: Op(Text.Split(k, '.'), Drop))
  }

  lemma DottedSplits(prefix: string, path: seq<string>)
    requires GoodKey(prefix) && GoodPath(path)
    ensures Text.Split(Dotted(prefix, path), '.') == [prefix] + path
  {
    DottedIsJoin([prefix], path);
    forall i | 0 <= i < |[prefix] + path| ensures Text.Free(([prefix] + path)[i], '.') {
      if i > 0 { assert GoodKey(path[i - 1]); }
    }
    Text.SplitJoin([prefix] + path, '.');
  }

  lemma PathsSplit(prefix: string, doc: map<string, Value>, o: Op)
    requires GoodKey(prefix) && WellKeyed(Doc(doc)) && o in OpsOf(Doc(doc))
    ensures Text.Split(Dotted(prefix, o.path), '.') == [prefix] + o.path
  {
    WellKeyedPaths(Doc(doc), o);
    DottedSplits(prefix, o.path);
  }

  lemma BelowPrefix(prefix: string, doc: map<string, Value>, p: Op)
    ensures p in OpsOf(Doc(map[prefix := Doc(doc)])) <==>
              exists o :: o in OpsOf(Doc(doc)) && p == Op([prefix] + o.path, o.act)
  {
  }

  /** The update documents have the key for this purpose. */
  predicate Entered(setDoc: map<string, string>, unsetDoc: set<string>, k: string, act: Act) {
    if act.Put? then k in setDoc && act.raw == setDoc[k] else k in unsetDoc
  }

  /** Every dotted key stands for an entry. */
  lemma KeyIsOp(prefix: string, doc: map<string, Value>, setDoc: map<string, string>, unsetDoc: set<string>, k: string, act: Act)
    requires GoodKey(prefix) && WellKeyed(Doc(doc))
    requires Added(prefix, OpsOf(Doc(doc)), map[], {}, setDoc, unsetDoc)
    requires Entered(setDoc, unsetDoc, k, act)
    ensures exists o :: o in OpsOf(Doc(doc)) && o.act == act && Dotted(prefix, o.path) == k && Text.Split(k, '.') == [prefix] + o.path
  {
    assert Emits(prefix, OpsOf(Doc(doc)), k, act);
    var o :| o in OpsOf(Doc(doc)) && Dotted(prefix, o.path) == k && o.act == act;
    PathsSplit(prefix, doc, o);
  }

  /** Every entry has its dotted key, with its own value. */
  lemma OpHasKey(prefix: string, doc: map<string, Value>, setDoc: map<string, string>, unsetDoc: set<string>, o: Op)
    requires GoodKey(prefix) && WellKeyed(Doc(doc))
    requires Added(prefix, OpsOf(Doc(doc)), map[], {}, setDoc, unsetDoc) && o in OpsOf(Doc(doc))
    ensures Entered(setDoc, unsetDoc, Dotted(prefix, o.path), o.act)
  {
    var k := Dotted(prefix, o.path);
    if o.act.Put? {
      KeyIsOp(prefix, doc, setDoc, unsetDoc, k, Put(setDoc[k]));
      var q :| q in OpsOf(Doc(doc)) && q.act == Put(setDoc[k]) && Dotted(prefix, q.path) == k && Text.Split(k, '.') == [prefix] + q.path;
      PathsSplit(prefix, doc, o);
      assert q.path == ([prefix] + q.path)[1..] == ([prefix] + o.path)[1..] == o.path;
      PrefixFree(Doc(doc), o, q);
    } else {
      assert Emits(prefix, OpsOf(Doc(doc)), k, Drop);
    }
  }

  lemma EntryIsOp(prefix: string, doc: map<string, Value>, setDoc: map<string, string>, unsetDoc: set<string>, p: Op)
    requires GoodKey(prefix) && WellKeyed(Doc(doc))
    requires Added(prefix, OpsOf(Doc(doc)), map[], {}, setDoc, unsetDoc) && p in Entries(setDoc, unsetDoc)
    ensures exists o :: o in OpsOf(Doc(doc)) && p == Op([prefix] + o.path, o.act)
  {
    var k :| Text.Split(k, '.') == p.path && Entered(setDoc, unsetDoc, k, p.act);
    KeyIsOp(prefix, doc, setDoc, unsetDoc, k, p.act);
  }

  lemma OpIsEntry(prefix: string, doc: map<string, Value>, setDoc: map<string, string>, unsetDoc: set<string>, o: Op)
    requires GoodKey(prefix) && WellKeyed(Doc(doc))
    requires Added(prefix, OpsOf(Doc(doc)), map[], {}, setDoc, unsetDoc) && o in OpsOf(Doc(doc))
    ensures Op([prefix] + o.path, o.act) in Entries(setDoc, unsetDoc)
  {
    PathsSplit(prefix, doc, o);
    OpHasKey(prefix, doc, setDoc, unsetDoc, o);
  }

  /** The update documents filled from empty for a well-keyed document hold exactly its entries below the prefix. */
  lemma EntriesAreOps(prefix: string, doc: map<string, Value>, setDoc: map<string, string>, unsetDoc: set<string>)
    requires GoodKey(prefix) && WellKeyed(Doc(doc))
    requires Added(prefix, OpsOf(Doc(doc)), map[], {}, setDoc, unsetDoc)
    ensures Entries(setDoc, unsetDoc) == OpsOf(Doc(map[prefix := Doc(doc)]))
  {
    forall p ensures p in Entries(setDoc, unsetDoc) <==> p in OpsOf(Doc(map[prefix := Doc(doc)])) {
      BelowPrefix(prefix, doc, p);
      if p in Entries(setDoc, unsetDoc) { EntryIsOp(prefix, doc, setDoc, unsetDoc, p); }
      if o :| o in OpsOf(Doc(doc)) && p == Op([prefix] + o.path, o.act) { OpIsEntry(prefix, doc, setDoc, unsetDoc, o); }
    }
  }

  /** An update compiled from a well-keyed document under a prefix, its entries applied in any order, merges the
      document under that prefix; whatever order the fields were visited in. */
  lemma CompiledUpdateMerges(prefix: string, doc: map<string, Value>, setDoc: map<string, string>, unsetDoc: set<string>,
                             c: Cell, ops: seq<Op>)
    requires GoodKey(prefix) && WellKeyed(Doc(doc))
    requires Added(prefix, OpsOf(Doc(doc)), map[], {}, setDoc, unsetDoc)
    requires NoDup(ops) && forall o :: o in ops <==> o in Entries(setDoc, unsetDoc)
    ensures ApplyAll(c, ops) == Merge(c, Doc(map[prefix := Doc(doc)]))
  {
    EntriesAreOps(prefix, doc, setDoc, unsetDoc);
    UpdateIsMerge(c, Doc(map[prefix := Doc(doc)]), ops);
  }

  const Inner := Doc(map["b" := Leaf("2")])
  const DotInKey := map["a.b" := Leaf("1"), "a" := Inner]

  const First := Field("a.b", Raw("1"))
  const Second := Field("a", Into([Field("b", Raw("2"))]))

  lemma OrderFirst(f: Field, doc: map<string, Value>)
    requires f.key in doc && OrderOfValue(f.visit, doc[f.key])
    ensures OrderOfSome([f], doc, {f.key})
  {
    assert [f][0] == f;
  }

  lemma OrderOfTwo(f: Field, g: Field, doc: map<string, Value>)
    requires doc.Keys == {f.key} + {g.key} && f.key != g.key
    requires OrderOfValue(f.visit, doc[f.key]) && OrderOfValue(g.visit, doc[g.key])
    ensures OrderOf([f] + [g], doc)
  {
    OrderFirst(f, doc);
    OrderNext([f], doc, {f.key}, g);
  }

  lemma BothOrders()
    ensures OrderOf([First, Second], DotInKey) && OrderOf([Second, First], DotInKey)
  {
    OrderFirst(Field("b", Raw("2")), Inner.fields);
    assert Inner.fields.Keys == {"b"};
    assert DotInKey.Keys == {"a.b"} + {"a"} == {"a"} + {"a.b"};
    OrderOfTwo(First, Second, DotInKey);
    OrderOfTwo(Second, First, DotInKey);
    assert [First] + [Second] == [First, Second] && [Second] + [First] == [Second, First];
  }

  lemma VisitedOneField(prefix: string, f: Field, d: Docs)
    ensures Visited(prefix, [f], d) == VisitedOne(Extend(prefix, f.key), f.visit, d)
  {
    VisitedNext(prefix, [], f, d);
    assert [] + [f] == [f];
  }

  lemma VisitedTwo(prefix: string, f: Field, g: Field, d: Docs)
    ensures Visited(prefix, [f, g], d)
            == VisitedOne(Extend(prefix, g.key), g.visit, VisitedOne(Extend(prefix, f.key), f.visit, d))
  {
    VisitedOneField(prefix, f, d);
    VisitedNext(prefix, [f], g, d);
    assert [f] + [g] == [f, g];
  }

  lemma FirstWrites(d: Docs)
    ensures VisitedOne(Extend("p", First.key), First.visit, d) == d.(sets := d.sets["p.a.b" := "1"])
  {
    assert "p" + "." + "a.b" == "p.a.b";
  }

  lemma SecondWrites(d: Docs)
    ensures VisitedOne(Extend("p", Second.key), Second.visit, d) == d.(sets := d.sets["p.a.b" := "2"])
  {
    assert "p" + "." + "a" == "p.a" && "p.a" + "." + "b" == "p.a.b";
    VisitedOneField("p.a", Field("b", Raw("2")), d);
  }

  /** With a dot in a key two entries share a dotted key, and the one that is visited last is kept: the two orders of one
      document give different updates. */
  lemma DotInKeyIsAmbiguous()
    ensures OrderOf([First, Second], DotInKey) && Visited("p", [First, Second], Docs(map[], {})) == Docs(map["p.a.b" := "2"], {})
    ensures OrderOf([Second, First], DotInKey) && Visited("p", [Second, First], Docs(map[], {})) == Docs(map["p.a.b" := "1"], {})
  {
    var d := Docs(map[], {});
    BothOrders();
    VisitedTwo("p", First, Second, d);
    FirstWrites(d);
    SecondWrites(d.(sets := d.sets["p.a.b" := "1"]));
    VisitedTwo("p", Second, First, d);
    SecondWrites(d);
    FirstWrites(d.(sets := d.sets["p.a.b" := "2"]));
  }
}
