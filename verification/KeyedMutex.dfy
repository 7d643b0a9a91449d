/** The keyed mutex at the grain of its atomic operations: the map lookup, the counter, the inner mutex, the
    map deletion. A run is any interleaving of these steps by any number of threads. */
module KeyedMutex {

  type Key = string

  datatype Owner = Nobody | Thread(t: nat)

  datatype Locker = Locker(count: int, holder: Owner)

  /** Where a thread is between two atomic operations of Lock or of the unlock closure. */
  datatype Pc =
    | Idle
    | Loaded(key: Key, l: nat)               // after LoadOrStore
    | Waiting(key: Key, l: nat)              // after count.Add(1)
    | Holding(key: Key, l: nat)              // Lock has returned
    | Dropped(key: Key, l: nat, last: bool)  // after count.Add(-1)
    | Leaving(key: Key, l: nat)              // after Delete

  datatype State = State(table: map<Key, nat>, lockers: seq<Locker>, pcs: seq<Pc>)

  datatype Step =
    | LoadOrStore(t: nat, key: Key)
    | CountUp(t: nat)
    | Acquire(t: nat)
    | CountDown(t: nat)
    | Delete(t: nat)
    | Unlock(t: nat)

  /** The effect of a step; a step that is not enabled does nothing. */
  function Do(s: State, a: Step): State {
    if a.t >= |s.pcs| then s
    else
      var pc := s.pcs[a.t];
      match a
      case LoadOrStore(t, k) =>
        if !pc.Idle? then s
        else if k in s.table then s.(pcs := s.pcs[t := Loaded(k, s.table[k])])
        else State(s.table[k := |s.lockers|], s.lockers + [Locker(0, Nobody)], s.pcs[t := Loaded(k, |s.lockers|)])
      case CountUp(t) =>
        if pc.Loaded? && pc.l < |s.lockers|
        then s.(lockers := s.lockers[pc.l := s.lockers[pc.l].(count := s.lockers[pc.l].count + 1)],
                pcs := s.pcs[t := Waiting(pc.key, pc.l)])
        else s
      case Acquire(t) =>
        if pc.Waiting? && pc.l < |s.lockers| && s.lockers[pc.l].holder.Nobody?
        then s.(lockers := s.lockers[pc.l := s.lockers[pc.l].(holder := Thread(t))],
                pcs := s.pcs[t := Holding(pc.key, pc.l)])
        else s
      case CountDown(t) =>
        if pc.Holding? && pc.l < |s.lockers|
        then s.(lockers := s.lockers[pc.l := s.lockers[pc.l].(count := s.lockers[pc.l].count - 1)],
                pcs := s.pcs[t := Dropped(pc.key, pc.l, s.lockers[pc.l].count == 1)])
        else s
      case Delete(t) =>
        if pc.Dropped? && pc.last
        then s.(table := s.table - {pc.key}, pcs := s.pcs[t := Leaving(pc.key, pc.l)])
        else s
      case Unlock(t) =>
        if (pc.Leaving? || (pc.Dropped? && !pc.last)) && pc.l < |s.lockers|
        then s.(lockers := s.lockers[pc.l := s.lockers[pc.l].(holder := Nobody)], pcs := s.pcs[t := Idle])
        else s
  }

  function Run(s: State, steps: seq<Step>): State
    decreases |steps|
  {
    if steps == [] then s else Run(Do(s, steps[0]), steps[1..])
  }

  function Begin(threads: nat): State {
    State(map[], [], seq(threads, _ => Idle))
  }

  // ---- per locker: one holder, and the count is the number of registered threads ----

  predicate Registered(pc: Pc, l: nat) {
    (pc.Waiting? || pc.Holding?) && pc.l == l
  }

  predicate Inside(pc: Pc, l: nat) {
    (pc.Holding? || pc.Dropped? || pc.Leaving?) && pc.l == l
  }

  function CountOn(pcs: seq<Pc>, l: nat): nat {
    if pcs == [] then 0 else (if Registered(pcs[0], l) then 1 else 0) + CountOn(pcs[1..], l)
  }

  lemma {:induction false} CountUpdate(pcs: seq<Pc>, t: nat, pc: Pc, l: nat)
    requires t < |pcs|
    ensures CountOn(pcs[t := pc], l) ==
            CountOn(pcs, l) - (if Registered(pcs[t], l) then 1 else 0) + (if Registered(pc, l) then 1 else 0)
  {
    if t == 0 {
      assert pcs[0 := pc][1..] == pcs[1..];
    } else {
      assert pcs[t := pc][1..] == pcs[1..][t - 1 := pc];
      CountUpdate(pcs[1..], t - 1, pc, l);
    }
  }

  lemma {:induction false} CountPositive(pcs: seq<Pc>, t: nat, l: nat)
    requires t < |pcs| && Registered(pcs[t], l)
    ensures CountOn(pcs, l) > 0
  {
    if t > 0 { CountPositive(pcs[1..], t - 1, l); }
  }

  lemma {:induction false} CountNone(pcs: seq<Pc>, l: nat)
    requires forall t :: 0 <= t < |pcs| ==> !Registered(pcs[t], l)
    ensures CountOn(pcs, l) == 0
  {
    if pcs != [] {
      forall t | 0 <= t < |pcs[1..]| ensures !Registered(pcs[1..][t], l) { assert pcs[1..][t] == pcs[t + 1]; }
      CountNone(pcs[1..], l);
    }
  }

  ghost predicate Bounds(s: State) {
    && (forall t :: 0 <= t < |s.pcs| ==> s.pcs[t].Idle? || s.pcs[t].l < |s.lockers|)
    && (forall k :: k in s.table ==> s.table[k] < |s.lockers|)
  }

  ghost predicate Counts(s: State) {
    forall l :: 0 <= l < |s.lockers| ==> s.lockers[l].count == CountOn(s.pcs, l)
  }

  /** The holder of a locker is the one thread inside it. */
  ghost predicate Holders(s: State) {
    && (forall l, t :: 0 <= l < |s.lockers| && 0 <= t < |s.pcs| ==>
          (s.lockers[l].holder == Thread(t) <==> Inside(s.pcs[t], l)))
    && (forall l :: 0 <= l < |s.lockers| && s.lockers[l].holder.Thread? ==> s.lockers[l].holder.t < |s.pcs|)
  }

  ghost predicate Sound(s: State) {
    Bounds(s) && Counts(s) && Holders(s)
  }

  lemma StepKeepsCounts(s: State, a: Step)
    requires Bounds(s) && Counts(s)
    ensures Bounds(Do(s, a)) && Counts(Do(s, a))
  {
    var s' := Do(s, a);
    if s' != s {
      forall l | 0 <= l < |s'.lockers| ensures s'.lockers[l].count == CountOn(s'.pcs, l) {
        CountUpdate(s.pcs, a.t, s'.pcs[a.t], l);
        if l == |s.lockers| { CountNone(s.pcs, l); }
      }
    }
  }

  lemma StepKeepsHolders(s: State, a: Step)
    requires Bounds(s) && Holders(s)
    ensures Holders(Do(s, a))
  {
  }

  lemma StepKeepsSound(s: State, a: Step)
    requires Sound(s)
    ensures Sound(Do(s, a))
  {
    StepKeepsCounts(s, a);
    StepKeepsHolders(s, a);
  }

  /** In every state of every run, whatever the interleaving: a locker's count is the number of threads registered
      on it, and no two threads are inside the same locker. */
  lemma {:induction false} LockerSafety(s: State, steps: seq<Step>)
    requires Sound(s)
    ensures Sound(Run(s, steps))
    decreases |steps|
  {
    if steps != [] {
      StepKeepsSound(s, steps[0]);
      LockerSafety(Do(s, steps[0]), steps[1..]);
    }
  }

  lemma BeginSound(threads: nat)
    ensures Sound(Begin(threads)) && Current(Begin(threads))
  {
  }

  // ---- everyone who has come in gets out ----

  /** A waiting thread is held up exactly by a thread inside its locker. */
  lemma BlockedExact(s: State, t: nat)
    requires Sound(s) && t < |s.pcs| && s.pcs[t].Waiting?
    ensures Do(s, Acquire(t)) == s <==> exists u :: 0 <= u < |s.pcs| && Inside(s.pcs[u], s.pcs[t].l)
  {
    var locker := s.lockers[s.pcs[t].l];
    if locker.holder.Thread? {
      assert Inside(s.pcs[locker.holder.t], s.pcs[t].l);
    } else {
      assert Do(s, Acquire(t)).pcs[t].Holding?;
    }
  }

  /** The steps a thread still has to make before it has returned from its unlock. */
  function Left(pc: Pc): nat {
    match pc
    case Idle => 0
    case Leaving(_, _) => 1
    case Dropped(_, _, _) => 2
    case Holding(_, _) => 3
    case Waiting(_, _) => 4
    case Loaded(_, _) => 5
  }

  function Work(pcs: seq<Pc>): nat {
    if pcs == [] then 0 else Left(pcs[0]) + Work(pcs[1..])
  }

  lemma {:induction false} WorkUpdate(pcs: seq<Pc>, t: nat, pc: Pc)
    requires t < |pcs|
    ensures Work(pcs[t := pc]) == Work(pcs) - Left(pcs[t]) + Left(pc)
  {
    if t == 0 {
      assert pcs[0 := pc][1..] == pcs[1..];
    } else {
      assert pcs[t := pc][1..] == pcs[1..][t - 1 := pc];
      WorkUpdate(pcs[1..], t - 1, pc);
    }
  }

  /** The next step of a thread that is not idle, as long as nobody is in its way. */
  function NextOf(pc: Pc, t: nat): Step {
    match pc
    case Loaded(_, _) => CountUp(t)
    case Waiting(_, _) => Acquire(t)
    case Holding(_, _) => CountDown(t)
    case Dropped(_, _, last) => if last then Delete(t) else Unlock(t)
    case _ => Unlock(t)
  }

  lemma Moves(s: State, t: nat)
    requires Sound(s) && t < |s.pcs| && !s.pcs[t].Idle? && !s.pcs[t].Waiting?
    ensures Do(s, NextOf(s.pcs[t], t)) != s
  {
    assert Do(s, NextOf(s.pcs[t], t)).pcs[t] != s.pcs[t];
  }

  /** No deadlock: where no thread can go on, none has come in. */
  lemma StuckIsIdle(s: State)
    requires Sound(s) && forall a: Step :: !a.LoadOrStore? ==> Do(s, a) == s
    ensures forall t :: 0 <= t < |s.pcs| ==> s.pcs[t].Idle?
  {
    forall t | 0 <= t < |s.pcs| ensures s.pcs[t].Idle? {
      if s.pcs[t].Waiting? {
        BlockedExact(s, t);
        var u :| 0 <= u < |s.pcs| && Inside(s.pcs[u], s.pcs[t].l);
        Moves(s, u);
      } else if !s.pcs[t].Idle? {
        Moves(s, t);
      }
    }
  }

  ghost predicate AllMove(s: State, steps: seq<Step>)
    decreases |steps|
  {
    steps == [] || (!steps[0].LoadOrStore? && Do(s, steps[0]) != s && AllMove(Do(s, steps[0]), steps[1..]))
  }

  /** And no livelock: when no more threads come in, those inside have at most five steps each to go. */
  lemma {:induction false} GetOut(s: State, steps: seq<Step>)
    requires AllMove(s, steps)
    ensures |steps| + Work(Run(s, steps).pcs) <= Work(s.pcs) <= 5 * |s.pcs|
    decreases |steps|
  {
    AtMostFive(s.pcs);
    if steps != [] {
      var next := Do(s, steps[0]);
      WorkUpdate(s.pcs, steps[0].t, next.pcs[steps[0].t]);
      GetOut(next, steps[1..]);
    }
  }

  lemma {:induction false} AtMostFive(pcs: seq<Pc>)
    ensures Work(pcs) <= 5 * |pcs|
  {
    if pcs != [] { AtMostFive(pcs[1..]); }
  }

  // ---- per key ----

  /** At most one thread has returned from Lock on the key and not yet started to unlock. */
  ghost predicate Exclusive(s: State, k: Key) {
    forall t, u :: 0 <= t < u < |s.pcs| ==> !(s.pcs[t].Holding? && s.pcs[t].key == k && s.pcs[u].Holding? && s.pcs[u].key == k)
  }

  /** Between a lookup and its count, or between the last decrement and its deletion, the map can be overtaken.
      A step is calm when it does not use that gap: no last decrement under a thread that has looked the locker up
      but not counted itself, and no lookup of a key whose deletion is under way. */
  ghost predicate Calm(s: State, a: Step) {
    && (a.CountDown? && a.t < |s.pcs| && s.pcs[a.t].Holding? && s.pcs[a.t].l < |s.lockers| && s.lockers[s.pcs[a.t].l].count == 1 ==>
          forall u :: 0 <= u < |s.pcs| ==> !(s.pcs[u].Loaded? && s.pcs[u].l == s.pcs[a.t].l))
    && (a.LoadOrStore? ==> forall u :: 0 <= u < |s.pcs| ==> !(s.pcs[u].Dropped? && s.pcs[u].last && s.pcs[u].key == a.key))
  }

  predicate Bound(pc: Pc) {
    pc.Loaded? || pc.Waiting? || pc.Holding?
  }

  /** Every thread that is bound to a locker for a key is bound to the one the map holds, and while a deletion is
      under way nobody is. */
  ghost predicate Current(s: State) {
    && (forall t :: 0 <= t < |s.pcs| && Bound(s.pcs[t]) ==>
          s.pcs[t].key in s.table && s.table[s.pcs[t].key] == s.pcs[t].l)
    && (forall k, m :: k in s.table && m in s.table && s.table[k] == s.table[m] ==> k == m)
    && (forall t, u :: 0 <= t < |s.pcs| && 0 <= u < |s.pcs| && s.pcs[t].Dropped? && s.pcs[t].last && Bound(s.pcs[u]) ==>
          s.pcs[u].key != s.pcs[t].key)
  }

  lemma StepKeepsCurrent(s: State, a: Step)
    requires Sound(s) && Current(s) && Calm(s, a)
    ensures Current(Do(s, a))
  {
    if a.CountDown? && a.t < |s.pcs| && s.pcs[a.t].Holding? && s.lockers[s.pcs[a.t].l].count == 1 {
      var t, l := a.t, s.pcs[a.t].l;
      forall u | 0 <= u < |s.pcs| && u != t && Bound(s.pcs[u]) ensures s.pcs[u].key != s.pcs[t].key {
        if s.pcs[u].l == l {
          CountUpdate(s.pcs, t, Idle, l);
          CountPositive(s.pcs[t := Idle], u, l);
        }
      }
    }
  }

  lemma CurrentIsExclusive(s: State, k: Key)
    requires Sound(s) && Current(s)
    ensures Exclusive(s, k)
  {
    forall t, u | 0 <= t < |s.pcs| && 0 <= u < |s.pcs| && s.pcs[t].Holding? && s.pcs[u].Holding?
                  && s.pcs[t].key == k == s.pcs[u].key
      ensures t == u
    {
      OneInside(s, s.table[k], t, u);
    }
  }

  lemma OneInside(s: State, l: nat, t: nat, u: nat)
    requires Holders(s) && l < |s.lockers| && t < |s.pcs| && u < |s.pcs|
    requires Inside(s.pcs[t], l) && Inside(s.pcs[u], l)
    ensures t == u
  {
    assert s.lockers[l].holder == Thread(t) && s.lockers[l].holder == Thread(u);
  }

  ghost predicate CalmRun(s: State, steps: seq<Step>)
    decreases |steps|
  {
    steps == [] || (Calm(s, steps[0]) && CalmRun(Do(s, steps[0]), steps[1..]))
  }

  lemma {:induction false} CalmRunKeeps(s: State, steps: seq<Step>)
    requires Sound(s) && Current(s) && CalmRun(s, steps)
    ensures Sound(Run(s, steps)) && Current(Run(s, steps))
    decreases |steps|
  {
    if steps != [] {
      StepKeepsSound(s, steps[0]);
      StepKeepsCurrent(s, steps[0]);
      CalmRunKeeps(Do(s, steps[0]), steps[1..]);
    }
  }

  /** On every run of calm steps, at most one thread holds a key. */
  lemma CalmRunsExclude(threads: nat, steps: seq<Step>, k: Key)
    requires CalmRun(Begin(threads), steps)
    ensures Exclusive(Run(Begin(threads), steps), k)
  {
    BeginSound(threads);
    CalmRunKeeps(Begin(threads), steps);
    CurrentIsExclusive(Run(Begin(threads), steps), k);
  }

  // ---- a step that is not calm ----

  /** The entry of a deletion under way is still the one to be deleted. */
  ghost predicate Pending(s: State) {
    forall t :: 0 <= t < |s.pcs| && s.pcs[t].Dropped? && s.pcs[t].last ==>
      s.pcs[t].key in s.table && s.table[s.pcs[t].key] == s.pcs[t].l
  }

  lemma StepKeepsPending(s: State, a: Step)
    requires Sound(s) && Current(s) && Pending(s) && Calm(s, a)
    ensures Pending(Do(s, a))
  {
    if a.Delete? && a.t < |s.pcs| && s.pcs[a.t].Dropped? && s.pcs[a.t].last {
      forall w | 0 <= w < |s.pcs| && w != a.t && s.pcs[w].Dropped? && s.pcs[w].last ensures s.pcs[w].key != s.pcs[a.t].key {
        OnePending(s, a.t, w);
      }
    }
  }

  lemma OnePending(s: State, t: nat, w: nat)
    requires Sound(s) && Pending(s) && t < |s.pcs| && w < |s.pcs|
    requires s.pcs[t].Dropped? && s.pcs[t].last && s.pcs[w].Dropped? && s.pcs[w].last
    ensures s.pcs[w].key == s.pcs[t].key ==> w == t
  {
    if s.pcs[w].key == s.pcs[t].key { OneInside(s, s.pcs[t].l, t, w); }
  }

  lemma {:induction false} CalmRunKeepsPending(s: State, steps: seq<Step>)
    requires Sound(s) && Current(s) && Pending(s) && CalmRun(s, steps)
    ensures Pending(Run(s, steps))
    decreases |steps|
  {
    if steps != [] {
      StepKeepsSound(s, steps[0]);
      StepKeepsCurrent(s, steps[0]);
      StepKeepsPending(s, steps[0]);
      CalmRunKeepsPending(Do(s, steps[0]), steps[1..]);
    }
  }

  /** Thread p is about to delete the entry of k, thread q has looked it up but not counted itself. */
  ghost predicate Overtaken(s: State, p: nat, q: nat, k: Key, l: nat) {
    && Bounds(s) && p < |s.pcs| && q < |s.pcs| && p != q
    && s.pcs[p] == Dropped(k, l, true) && s.pcs[q] == Loaded(k, l) && k in s.table && l < |s.lockers|
    && forall w :: 0 <= w < |s.pcs| && w != p ==> !(s.pcs[w].Dropped? && s.pcs[w].last && s.pcs[w].key == k)
  }

  lemma RunNext(s: State, a: Step, rest: seq<Step>)
    ensures Run(s, [a] + rest) == Run(Do(s, a), rest)
    ensures CalmRun(s, [a] + rest) <==> Calm(s, a) && CalmRun(Do(s, a), rest)
  {
    assert ([a] + rest)[1..] == rest;
  }

  /** p deletes and releases, q takes the orphaned locker. */
  function TakeOrphan(p: nat, q: nat, more: seq<Step>): seq<Step> {
    [Delete(p)] + ([Unlock(p)] + ([CountUp(q)] + ([Acquire(q)] + more)))
  }

  /** p finds no entry and takes a new locker. */
  function TakeNew(p: nat, k: Key): seq<Step> {
    [LoadOrStore(p, k)] + ([CountUp(p)] + ([Acquire(p)] + []))
  }

  lemma OrphanTaken(s: State, p: nat, q: nat, k: Key, l: nat, more: seq<Step>) returns (o: State)
    requires Overtaken(s, p, q, k, l)
    ensures Run(s, TakeOrphan(p, q, more)) == Run(o, more)
    ensures CalmRun(s, TakeOrphan(p, q, more)) <==> CalmRun(o, more)
    ensures k !in o.table && |o.pcs| == |s.pcs| && o.pcs[p].Idle? && o.pcs[q] == Holding(k, l)
    ensures forall w :: 0 <= w < |s.pcs| && w != p && w != q ==> o.pcs[w] == s.pcs[w]
  {
    var s1 := Do(s, Delete(p));
    var s2 := Do(s1, Unlock(p));
    var s3 := Do(s2, CountUp(q));
    o := Do(s3, Acquire(q));
    RunNext(s3, Acquire(q), more);
    RunNext(s2, CountUp(q), [Acquire(q)] + more);
    RunNext(s1, Unlock(p), [CountUp(q)] + ([Acquire(q)] + more));
    RunNext(s, Delete(p), [Unlock(p)] + ([CountUp(q)] + ([Acquire(q)] + more)));
  }

  lemma NewTaken(s: State, p: nat, k: Key)
    requires p < |s.pcs| && s.pcs[p].Idle? && k !in s.table
    requires forall w :: 0 <= w < |s.pcs| ==> !(s.pcs[w].Dropped? && s.pcs[w].last && s.pcs[w].key == k)
    ensures CalmRun(s, TakeNew(p, k))
    ensures var o := Run(s, TakeNew(p, k));
            |o.pcs| == |s.pcs| && o.pcs[p] == Holding(k, |s.lockers|) && forall w :: 0 <= w < |s.pcs| && w != p ==> o.pcs[w] == s.pcs[w]
  {
    var s1 := Do(s, LoadOrStore(p, k));
    var s2 := Do(s1, CountUp(p));
    RunNext(s2, Acquire(p), []);
    RunNext(s1, CountUp(p), [Acquire(p)] + []);
    RunNext(s, LoadOrStore(p, k), [CountUp(p)] + ([Acquire(p)] + []));
  }

  /** Two threads suffice, and nothing else has to go wrong. */
  lemma OvertakingBreaks(s: State, p: nat, q: nat, k: Key, l: nat)
    requires Overtaken(s, p, q, k, l)
    ensures var steps := TakeOrphan(p, q, TakeNew(p, k)); CalmRun(s, steps) && !Exclusive(Run(s, steps), k)
  {
    var o := OrphanTaken(s, p, q, k, l, TakeNew(p, k));
    NewTaken(o, p, k);
    var end := Run(o, TakeNew(p, k));
    assert end.pcs[p].Holding? && end.pcs[p].key == k && end.pcs[q].Holding? && end.pcs[q].key == k;
  }

  /** A step that has an effect and is not calm puts one thread in the way of another. */
  lemma NotCalmOvertakes(s: State, a: Step) returns (p: nat, q: nat, k: Key, l: nat)
    requires Sound(s) && Current(s) && Pending(s) && !Calm(s, a) && Do(s, a) != s
    ensures Overtaken(Do(s, a), p, q, k, l)
  {
    StepKeepsSound(s, a);
    if a.CountDown? {
      p, k, l := a.t, s.pcs[a.t].key, s.pcs[a.t].l;
      q :| 0 <= q < |s.pcs| && s.pcs[q].Loaded? && s.pcs[q].l == l;
    } else {
      q, k := a.t, a.key;
      p :| 0 <= p < |s.pcs| && s.pcs[p].Dropped? && s.pcs[p].last && s.pcs[p].key == k;
      l := s.pcs[p].l;
      forall w | 0 <= w < |s.pcs| && s.pcs[w].Dropped? && s.pcs[w].last && s.pcs[w].key == k ensures w == p {
        OnePending(s, p, w);
      }
    }
  }

  /** Exactly which steps are safe: after a calm run, a step that has an effect leaves a key exclusive on every calm
      continuation if and only if it is calm itself. */
  lemma CalmExact(threads: nat, steps: seq<Step>, a: Step)
    requires CalmRun(Begin(threads), steps) && Do(Run(Begin(threads), steps), a) != Run(Begin(threads), steps)
    ensures var s := Run(Begin(threads), steps);
            Calm(s, a) <==> forall more, k :: CalmRun(Do(s, a), more) ==> Exclusive(Run(Do(s, a), more), k)
  {
    var s := Run(Begin(threads), steps);
    BeginSound(threads);
    CalmRunKeeps(Begin(threads), steps);
    CalmRunKeepsPending(Begin(threads), steps);
    StepKeepsSound(s, a);
    if Calm(s, a) {
      StepKeepsCurrent(s, a);
      forall more, k | CalmRun(Do(s, a), more) ensures Exclusive(Run(Do(s, a), more), k) {
        CalmRunKeeps(Do(s, a), more);
        CurrentIsExclusive(Run(Do(s, a), more), k);
      }
    } else {
      var p, q, k, l := NotCalmOvertakes(s, a);
      OvertakingBreaks(Do(s, a), p, q, k, l);
    }
  }

  // ---- with lookup-and-count and decrement-and-delete as one step each ----

  datatype Action = Enter(t: nat, key: Key) | Take(t: nat) | Leave(t: nat) | Free(t: nat)

  function StepsOf(a: Action): seq<Step> {
    match a
    case Enter(t, k) => [LoadOrStore(t, k), CountUp(t)]
    case Take(t) => [Acquire(t)]
    case Leave(t) => [CountDown(t), Delete(t)]
    case Free(t) => [Unlock(t)]
  }

  function RunActions(s: State, actions: seq<Action>): State
    decreases |actions|
  {
    if actions == [] then s else RunActions(Run(s, StepsOf(actions[0])), actions[1..])
  }

  /** Between two actions no thread is in one of the two gaps. */
  ghost predicate NoGap(s: State) {
    forall t :: 0 <= t < |s.pcs| ==> !s.pcs[t].Loaded? && !(s.pcs[t].Dropped? && s.pcs[t].last)
  }

  lemma ActionSteps(s: State, a: Action)
    ensures var steps := StepsOf(a);
      Run(s, steps) == if |steps| == 2 then Do(Do(s, steps[0]), steps[1]) else Do(s, steps[0])
  {
    var steps := StepsOf(a);
    var s1 := Do(s, steps[0]);
    if |steps| == 2 {
      assert steps[1..] == [steps[1]] && [steps[1]][1..] == [];
      assert Run(s1, [steps[1]]) == Run(Do(s1, steps[1]), []);
    } else {
      assert steps[1..] == [] && Run(s1, []) == s1;
    }
  }

  lemma ActionClosesGap(s: State, a: Action)
    requires Bounds(s) && NoGap(s)
    ensures NoGap(Run(s, StepsOf(a)))
  {
    ActionSteps(s, a);
  }

  /** Every entry of the map belongs to some thread that is waiting for its key or holding it. */
  ghost predicate NoLeak(s: State) {
    forall k :: k in s.table ==> exists t :: 0 <= t < |s.pcs| && Bound(s.pcs[t]) && s.pcs[t].key == k
  }

  lemma {:induction false} CountSome(pcs: seq<Pc>, l: nat) returns (t: nat)
    requires CountOn(pcs, l) > 0
    ensures t < |pcs| && Registered(pcs[t], l)
  {
    if Registered(pcs[0], l) {
      t := 0;
    } else {
      var u := CountSome(pcs[1..], l);
      t := u + 1;
    }
  }

  lemma LeaveShape(s: State, t: nat)
    requires Bounds(s) && NoGap(s)
    ensures var s' := Run(s, StepsOf(Leave(t)));
      if t >= |s.pcs| || !s.pcs[t].Holding? then s' == s
      else if s.lockers[s.pcs[t].l].count == 1
      then s'.table == s.table - {s.pcs[t].key} && s'.pcs == s.pcs[t := Leaving(s.pcs[t].key, s.pcs[t].l)]
      else s'.table == s.table && s'.pcs == s.pcs[t := Dropped(s.pcs[t].key, s.pcs[t].l, false)]
           && s'.lockers == s.lockers[s.pcs[t].l := s.lockers[s.pcs[t].l].(count := s.lockers[s.pcs[t].l].count - 1)]
  {
    ActionSteps(s, Leave(t));
  }

  lemma LeaveKeepsNoLeak(s: State, t: nat)
    requires Sound(s) && Current(s) && NoGap(s) && NoLeak(s)
    requires Sound(Run(s, StepsOf(Leave(t)))) && Current(Run(s, StepsOf(Leave(t))))
    ensures NoLeak(Run(s, StepsOf(Leave(t))))
  {
    LeaveShape(s, t);
    var s' := Run(s, StepsOf(Leave(t)));
    if s' != s {
      var l := s.pcs[t].l;
      forall k | k in s'.table ensures exists u :: 0 <= u < |s'.pcs| && Bound(s'.pcs[u]) && s'.pcs[u].key == k {
        var u :| 0 <= u < |s.pcs| && Bound(s.pcs[u]) && s.pcs[u].key == k;
        if u != t {
          assert s'.pcs[u] == s.pcs[u];
        } else {
          CountPositive(s.pcs, t, l);
          CountUpdate(s.pcs, t, s'.pcs[t], l);
          var v := CountSome(s'.pcs, l);
          assert Bound(s'.pcs[v]) && s'.table[s'.pcs[v].key] == l == s'.table[k];
        }
      }
    }
  }

  lemma OtherKeepsNoLeak(s: State, a: Action)
    requires Bounds(s) && NoGap(s) && NoLeak(s) && !a.Leave?
    ensures NoLeak(Run(s, StepsOf(a)))
  {
    ActionSteps(s, a);
    var s' := Run(s, StepsOf(a));
    forall k | k in s'.table ensures exists t :: 0 <= t < |s'.pcs| && Bound(s'.pcs[t]) && s'.pcs[t].key == k {
      if k in s.table {
        var t :| 0 <= t < |s.pcs| && Bound(s.pcs[t]) && s.pcs[t].key == k;
        assert Bound(s'.pcs[t]) && s'.pcs[t].key == k;
      } else {
        assert Bound(s'.pcs[a.t]) && s'.pcs[a.t].key == k;
      }
    }
  }

  lemma ActionKeeps(s: State, a: Action)
    requires Sound(s) && Current(s) && NoGap(s) && NoLeak(s)
    ensures var s' := Run(s, StepsOf(a)); Sound(s') && Current(s') && NoGap(s') && NoLeak(s')
  {
    var steps := StepsOf(a);
    ActionClosesGap(s, a);
    ActionSteps(s, a);
    assert Calm(s, steps[0]);
    StepKeepsSound(s, steps[0]);
    StepKeepsCurrent(s, steps[0]);
    if |steps| == 2 {
      StepKeepsSound(Do(s, steps[0]), steps[1]);
      StepKeepsCurrent(Do(s, steps[0]), steps[1]);
    }
    if a.Leave? { LeaveKeepsNoLeak(s, a.t); } else { OtherKeepsNoLeak(s, a); }
  }

  lemma {:induction false} ActionsKeep(s: State, actions: seq<Action>)
    requires Sound(s) && Current(s) && NoGap(s) && NoLeak(s)
    ensures var s' := RunActions(s, actions); Sound(s') && Current(s') && NoGap(s') && NoLeak(s')
    decreases |actions|
  {
    if actions != [] {
      ActionKeeps(s, actions[0]);
      ActionsKeep(Run(s, StepsOf(actions[0])), actions[1..]);
    }
  }

  /** If looking up and counting, and decrementing and deleting, were one step each, every interleaving would
      exclude, and the map would keep no entry that nobody uses. */
  lemma AtomicActionsExclude(threads: nat, actions: seq<Action>, k: Key)
    ensures Exclusive(RunActions(Begin(threads), actions), k)
    ensures NoLeak(RunActions(Begin(threads), actions))
  {
    BeginSound(threads);
    ActionsKeep(Begin(threads), actions);
    CurrentIsExclusive(RunActions(Begin(threads), actions), k);
  }

  // ---- the code's own steps do not exclude ----

  lemma {:induction false} RunSplit(s: State, a: seq<Step>, b: seq<Step>)
    ensures Run(s, a + b) == Run(Run(s, a), b)
    decreases |a|
  {
    if a == [] {
      assert a + b == b;
    } else {
      assert (a + b)[1..] == a[1..] + b;
      RunSplit(Do(s, a[0]), a[1..], b);
    }
  }

  lemma ThreeSteps(s: State, a: Step, b: Step, c: Step)
    ensures Run(s, [a, b, c]) == Do(Do(Do(s, a), b), c)
  {
    assert [a, b, c][1..] == [b, c] && [b, c][1..] == [c] && [c][1..] == [];
    var s1 := Do(s, a);
    var s2 := Do(s1, b);
    assert Run(s2, [c]) == Run(Do(s2, c), []);
    assert Run(s1, [b, c]) == Run(s2, [c]);
  }

  const FirstHolds := [LoadOrStore(0, "k"), CountUp(0), Acquire(0)]
  const Overtaking := [LoadOrStore(1, "k"), CountDown(0), Delete(0)]
  const SecondHolds := [Unlock(0), CountUp(1), Acquire(1)]
  const ThirdHolds := [LoadOrStore(2, "k"), CountUp(2), Acquire(2)]

  const Held := State(map["k" := 0], [Locker(1, Thread(0))], [Holding("k", 0), Idle, Idle])
  const Deleted := State(map[], [Locker(0, Thread(0))], [Leaving("k", 0), Loaded("k", 0), Idle])
  const Orphan := State(map[], [Locker(1, Thread(1))], [Idle, Holding("k", 0), Idle])
  const Twice := State(map["k" := 1], [Locker(1, Thread(1)), Locker(1, Thread(2))], [Idle, Holding("k", 0), Holding("k", 1)])

  lemma OvertakenSegments()
    ensures Run(Begin(3), FirstHolds) == Held
    ensures Run(Held, Overtaking) == Deleted
  {
    assert Begin(3).pcs == [Idle, Idle, Idle];
    ThreeSteps(Begin(3), FirstHolds[0], FirstHolds[1], FirstHolds[2]);
    ThreeSteps(Held, Overtaking[0], Overtaking[1], Overtaking[2]);
    assert map["k" := 0] - {"k"} == map[];
  }

  lemma OrphanSegments()
    ensures Run(Deleted, SecondHolds) == Orphan
    ensures Run(Orphan, ThirdHolds) == Twice
  {
    ThreeSteps(Deleted, SecondHolds[0], SecondHolds[1], SecondHolds[2]);
    ThreeSteps(Orphan, ThirdHolds[0], ThirdHolds[1], ThirdHolds[2]);
  }

  /** Thread 1 looks the locker up, thread 0 releases and deletes it, thread 1 locks it anyway, thread 2 finds no
      entry and locks a new one: two threads hold the key. */
  lemma FineStepsAdmitTwoHolders()
    ensures !Exclusive(Run(Begin(3), FirstHolds + (Overtaking + (SecondHolds + ThirdHolds))), "k")
  {
    OvertakenSegments();
    OrphanSegments();
    RunSplit(Begin(3), FirstHolds, Overtaking + (SecondHolds + ThirdHolds));
    RunSplit(Held, Overtaking, SecondHolds + ThirdHolds);
    RunSplit(Deleted, SecondHolds, ThirdHolds);
    assert Twice.pcs[1] == Holding("k", 0) && Twice.pcs[2] == Holding("k", 1);
  }
}
