/** What the counters of a finished verify task say about the actions of its run. */
module VerifyTotals {
  import opened Sequences
  import opened VerifyProgress
  import opened VerifyTask

  // ---- reading a run ----

  /** Comic i was handed to the pool, which accepted its closure. */
  predicate AcceptedIn(t: Setup, s: State, actions: seq<Action>, i: nat)
    requires |t.ids| == |s.jobs|
    decreases |actions|
  {
    actions != [] && ((actions[0] == Submit(true) && s.main == Added(i)) || AcceptedIn(t, Step(t, s, actions[0]), actions[1..], i))
  }

  /** The numbers that the actions of the verify closure of comic i carried, of those that had an effect. */
  function VerifyLog(t: Setup, s: State, actions: seq<Action>, i: nat): seq<nat>
    requires |t.ids| == |s.jobs|
    decreases |actions|
  {
    if actions == [] then []
    else VerifyEntry(t, s, actions[0], i) + VerifyLog(t, Step(t, s, actions[0]), actions[1..], i)
  }

  function VerifyEntry(t: Setup, s: State, a: Action, i: nat): seq<nat>
    requires |t.ids| == |s.jobs|
  {
    if a.Verify? && a.i == i && Step(t, s, a) != s then [a.found] else []
  }

  /** The same for its fix closure. */
  function RepairLog(t: Setup, s: State, actions: seq<Action>, i: nat): seq<nat>
    requires |t.ids| == |s.jobs|
    decreases |actions|
  {
    if actions == [] then []
    else RepairEntry(t, s, actions[0], i) + RepairLog(t, Step(t, s, actions[0]), actions[1..], i)
  }

  function RepairEntry(t: Setup, s: State, a: Action, i: nat): seq<nat>
    requires |t.ids| == |s.jobs|
  {
    if a.Repair? && a.i == i && Step(t, s, a) != s then [a.fixed] else []
  }

  function Second(log: seq<nat>): nat { if |log| >= 2 then log[1] else 0 }
  function Third(log: seq<nat>): nat { if |log| >= 3 then log[2] else 0 }

  /** A verify closure starts, then reports how many damaged images it found. */
  function FoundIn(t: Setup, actions: seq<Action>, i: nat): nat {
    Second(VerifyLog(t, Begin(|t.ids|), actions, i))
  }

  /** A fix closure is taken out of the channel, starts, then reports how many images it repaired. */
  function FixedIn(t: Setup, actions: seq<Action>, i: nat): nat {
    Third(RepairLog(t, Begin(|t.ids|), actions, i))
  }

  function Total(xs: seq<int>): int {
    if xs == [] then 0 else xs[0] + Total(xs[1..])
  }

  // ---- what a job has to do with its log ----

  predicate VerifyKnows(autoFix: bool, v: Verifier, log: seq<nat>) {
    match v
    case Unsent => log == []
    case Queued => log == []
    case Verifying => |log| == 1
    case Checked(n) => |log| == 2 && log[1] == n
    case Waiting(n) => |log| >= 3 && log[1] == n > 0 && autoFix
    case Owing(n) => |log| >= 3 && log[1] == n > 0 && autoFix
    case Sent => |log| >= 3 && log[1] > 0 && autoFix
    case Returned => |log| >= 3 && log[1] > 0 && autoFix
    case Closing(_, n, lost) => |log| >= 3 && log[1] == n && (lost <==> n > 0 && autoFix)
  }

  predicate FixKnows(f: Fixer, verified: seq<nat>, log: seq<nat>) {
    match f
    case NoFix => log == []
    case Pending(n) => log == [] && |verified| >= 3 && verified[1] == n
    case Handed(n) => |log| == 1 && |verified| >= 3 && verified[1] == n
    case Fixing(n) => |log| == 2 && |verified| >= 3 && verified[1] == n
    case Closing(_, n, k) => |log| >= 3 && log[2] == k && |verified| >= 3 && verified[1] == n
  }

  predicate Knows(t: Setup, j: Job, accepted: bool, v: seq<nat>, r: seq<nat>) {
    VerifyKnows(t.autoFix, j.v, v) && FixKnows(j.f, v, r) && JobOk(j) && (accepted <==> !j.v.Unsent?)
  }

  lemma VerifyStepKnows(t: Setup, s: State, i: nat, found: nat, accepted: bool, v: seq<nat>, r: seq<nat>)
    requires |t.ids| == |s.jobs| && i < |s.jobs| && Knows(t, s.jobs[i], accepted, v, r)
    ensures var a := Verify(i, found); Knows(t, Step(t, s, a).jobs[i], accepted, v + VerifyEntry(t, s, a, i), r)
  {
    var s' := Step(t, s, Verify(i, found));
    if s' == s {
      assert v + [] == v;
    } else {
      assert (v + [found])[..|v|] == v;
    }
  }

  lemma RepairStepKnows(t: Setup, s: State, i: nat, fixed: nat, accepted: bool, v: seq<nat>, r: seq<nat>)
    requires |t.ids| == |s.jobs| && i < |s.jobs| && Knows(t, s.jobs[i], accepted, v, r)
    ensures var a := Repair(i, fixed); Knows(t, Step(t, s, a).jobs[i], accepted, v, r + RepairEntry(t, s, a, i))
  {
    var s' := Step(t, s, Repair(i, fixed));
    if s' == s { assert r + [] == r; }
  }

  lemma SendStepKnows(t: Setup, s: State, i: nat, accepted: bool, v: seq<nat>, r: seq<nat>)
    requires |t.ids| == |s.jobs| && i < |s.jobs| && Knows(t, s.jobs[i], accepted, v, r)
    ensures Knows(t, Step(t, s, Send(i)).jobs[i], accepted, v, r)
  {
  }

  lemma SubmitStepKnows(t: Setup, s: State, done: bool, i: nat, accepted: bool, v: seq<nat>, r: seq<nat>)
    requires Inv(t.ids, s) && i < |s.jobs| && Knows(t, s.jobs[i], accepted, v, r)
    ensures Knows(t, Step(t, s, Submit(done)).jobs[i], accepted || (done && s.main == Added(i)), v, r)
  {
  }

  /** Actions of other closures leave the job alone. */
  lemma OtherStep(t: Setup, s: State, a: Action, i: nat)
    requires |t.ids| == |s.jobs| && i < |s.jobs|
    requires !a.Submit? && !((a.Verify? || a.Repair? || a.Send?) && a.i == i)
    ensures Step(t, s, a).jobs[i] == s.jobs[i]
  {
  }

  /** One action, seen by comic i. */
  lemma StepKnows(t: Setup, s: State, a: Action, i: nat, accepted: bool, v: seq<nat>, r: seq<nat>)
    requires Inv(t.ids, s) && i < |s.jobs| && Knows(t, s.jobs[i], accepted, v, r)
    ensures var now := accepted || (a == Submit(true) && s.main == Added(i));
            Knows(t, Step(t, s, a).jobs[i], now, v + VerifyEntry(t, s, a, i), r + RepairEntry(t, s, a, i))
  {
    Nothing0(v);
    Nothing0(r);
    if a.Submit? {
      SubmitStepKnows(t, s, a.accepted, i, accepted, v, r);
    } else if (a.Verify? || a.Repair? || a.Send?) && a.i == i {
      OwnStepKnows(t, s, a, i, accepted, v, r);
    } else {
      OtherStep(t, s, a, i);
    }
  }

  lemma Nothing0(log: seq<nat>)
    ensures log + [] == log
  {
  }

  lemma OwnStepKnows(t: Setup, s: State, a: Action, i: nat, accepted: bool, v: seq<nat>, r: seq<nat>)
    requires |t.ids| == |s.jobs| && i < |s.jobs| && Knows(t, s.jobs[i], accepted, v, r)
    requires (a.Verify? || a.Repair? || a.Send?) && a.i == i
    ensures Knows(t, Step(t, s, a).jobs[i], accepted, v + VerifyEntry(t, s, a, i), r + RepairEntry(t, s, a, i))
  {
    Nothing0(v);
    Nothing0(r);
    match a
    case Verify(_, found) => VerifyStepKnows(t, s, i, found, accepted, v, r);
    case Repair(_, fixed) => RepairStepKnows(t, s, i, fixed, accepted, v, r);
    case Send(_) => SendStepKnows(t, s, i, accepted, v, r);
  }

  lemma Regrouped(log: seq<nat>, entry: seq<nat>, rest: seq<nat>)
    ensures (log + entry) + rest == log + (entry + rest)
  {
  }

  /** The first action of a run, and the others. */
  lemma RunNext(t: Setup, s: State, actions: seq<Action>, i: nat)
    requires |t.ids| == |s.jobs| && actions != []
    ensures var s', rest := Step(t, s, actions[0]), actions[1..];
            && Run(t, s, actions) == Run(t, s', rest)
            && (AcceptedIn(t, s, actions, i) <==> (actions[0] == Submit(true) && s.main == Added(i)) || AcceptedIn(t, s', rest, i))
            && VerifyLog(t, s, actions, i) == VerifyEntry(t, s, actions[0], i) + VerifyLog(t, s', rest, i)
            && RepairLog(t, s, actions, i) == RepairEntry(t, s, actions[0], i) + RepairLog(t, s', rest, i)
  {
  }

  lemma {:induction false} RunKnows(t: Setup, s: State, actions: seq<Action>, i: nat, accepted: bool, v: seq<nat>, r: seq<nat>)
    requires Inv(t.ids, s) && i < |s.jobs| && Knows(t, s.jobs[i], accepted, v, r)
    ensures Knows(t, Run(t, s, actions).jobs[i], accepted || AcceptedIn(t, s, actions, i),
                  v + VerifyLog(t, s, actions, i), r + RepairLog(t, s, actions, i))
    decreases |actions|, 1
  {
    if actions == [] {
      Nothing0(v);
      Nothing0(r);
    } else {
      RunKnowsNext(t, s, actions, i, accepted, v, r);
    }
  }

  lemma {:induction false} RunKnowsNext(t: Setup, s: State, actions: seq<Action>, i: nat, accepted: bool, v: seq<nat>, r: seq<nat>)
    requires Inv(t.ids, s) && i < |s.jobs| && Knows(t, s.jobs[i], accepted, v, r) && actions != []
    ensures Knows(t, Run(t, s, actions).jobs[i], accepted || AcceptedIn(t, s, actions, i),
                  v + VerifyLog(t, s, actions, i), r + RepairLog(t, s, actions, i))
    decreases |actions|, 0
  {
    var a, s', rest := actions[0], Step(t, s, actions[0]), actions[1..];
    StepKnows(t, s, a, i, accepted, v, r);
    StepKeeps(t, s, a);
    RunKnows(t, s', rest, i, accepted || (a == Submit(true) && s.main == Added(i)),
             v + VerifyEntry(t, s, a, i), r + RepairEntry(t, s, a, i));
    RunNext(t, s, actions, i);
    Regrouped(v, VerifyEntry(t, s, a, i), VerifyLog(t, s', rest, i));
    Regrouped(r, RepairEntry(t, s, a, i), RepairLog(t, s', rest, i));
  }

  lemma LogKnows(t: Setup, actions: seq<Action>, i: nat)
    requires NoDup(t.ids) && i < |t.ids|
    ensures var s0 := Begin(|t.ids|);
            Knows(t, Run(t, s0, actions).jobs[i], AcceptedIn(t, s0, actions, i), VerifyLog(t, s0, actions, i), RepairLog(t, s0, actions, i))
  {
    var s0 := Begin(|t.ids|);
    BeginInv(t.ids);
    RunKnows(t, s0, actions, i, false, [], []);
    assert [] + VerifyLog(t, s0, actions, i) == VerifyLog(t, s0, actions, i);
    assert [] + RepairLog(t, s0, actions, i) == RepairLog(t, s0, actions, i);
  }

  // ---- the totals ----

  lemma {:induction false} SumTotal(jobs: seq<Job>, h: Job -> int, xs: seq<int>)
    requires |xs| == |jobs| && forall i :: 0 <= i < |jobs| ==> h(jobs[i]) == xs[i]
    ensures Sum(jobs, h) == Total(xs)
  {
    if jobs != [] {
      forall i | 0 <= i < |jobs[1..]| ensures h(jobs[1..][i]) == xs[1..][i] {
        assert jobs[1..][i] == jobs[i + 1] && xs[1..][i] == xs[i + 1];
      }
      SumTotal(jobs[1..], h, xs[1..]);
    }
  }

  /** A finished job's shares are what its closures reported. */
  lemma FinishedShares(t: Setup, j: Job, accepted: bool, v: seq<nat>, r: seq<nat>)
    requires Knows(t, j, accepted, v, r) && OwedOf(j) <= 0 && LostOf(j) <= 0
    ensures InvalidOf(j) == Second(v) && FixedOf(j) == Third(r) && Counted(j) == (if accepted then 1 else 0)
    ensures (accepted <==> |v| >= 2) && (r != [] <==> t.autoFix && Second(v) > 0) && (r != [] ==> |r| >= 3)
    ensures Third(r) <= Second(v)
  {
  }

  lemma SharesAreReports(t: Setup, actions: seq<Action>, i: nat)
    requires NoDup(t.ids) && i < |t.ids| && Run(t, Begin(|t.ids|), actions).main.Over?
    ensures var j, accepted := Run(t, Begin(|t.ids|), actions).jobs[i], AcceptedIn(t, Begin(|t.ids|), actions, i);
            && InvalidOf(j) == FoundIn(t, actions, i) && FixedOf(j) == FixedIn(t, actions, i)
            && Counted(j) == (if accepted then 1 else 0)
    ensures Reported(t, actions, i)
  {
    var s0 := Begin(|t.ids|);
    var s := Run(t, s0, actions);
    BeginInv(t.ids);
    RunKeeps(t, s0, actions);
    if OwedOf(s.jobs[i]) + LostOf(s.jobs[i]) > 0 { OwedBlocks(t.ids, s, i); }
    LogKnows(t, actions, i);
    FinishedShares(t, s.jobs[i], AcceptedIn(t, s0, actions, i), VerifyLog(t, s0, actions, i), RepairLog(t, s0, actions, i));
  }

  /** An accepted comic has reported its damaged images. It was repaired exactly if there were some and fixing was on, and
      then its fix closure has reported, too, and not more than was damaged. */
  ghost predicate Reported(t: Setup, actions: seq<Action>, i: nat) {
    var s0 := Begin(|t.ids|);
    && (AcceptedIn(t, s0, actions, i) <==> |VerifyLog(t, s0, actions, i)| >= 2)
    && (RepairLog(t, s0, actions, i) != [] <==> t.autoFix && FoundIn(t, actions, i) > 0)
    && (RepairLog(t, s0, actions, i) != [] ==> |RepairLog(t, s0, actions, i)| >= 3)
    && FixedIn(t, actions, i) <= FoundIn(t, actions, i)
  }

  function FoundAll(t: Setup, actions: seq<Action>): seq<int> { seq(|t.ids|, i requires i >= 0 => FoundIn(t, actions, i)) }
  function FixedAll(t: Setup, actions: seq<Action>): seq<int> { seq(|t.ids|, i requires i >= 0 => FixedIn(t, actions, i)) }

  function AcceptedAll(t: Setup, actions: seq<Action>): seq<int> {
    seq(|t.ids|, i requires i >= 0 => if AcceptedIn(t, Begin(|t.ids|), actions, i) then 1 else 0)
  }

  /** When a run is over, the totals are the sums of what was reported over the comics, and every accepted comic counts
      once. */
  lemma TotalsAreReports(t: Setup, actions: seq<Action>)
    requires NoDup(t.ids) && Run(t, Begin(|t.ids|), actions).main.Over?
    ensures var s := Run(t, Begin(|t.ids|), actions);
            && s.invalid == Total(FoundAll(t, actions))
            && s.fixed == Total(FixedAll(t, actions))
            && s.current == Total(AcceptedAll(t, actions))
    ensures forall i :: 0 <= i < |t.ids| ==> Reported(t, actions, i)
  {
    var s0 := Begin(|t.ids|);
    var s := Run(t, s0, actions);
    BeginInv(t.ids);
    RunKeeps(t, s0, actions);
    forall i | 0 <= i < |t.ids|
      ensures InvalidOf(s.jobs[i]) == FoundAll(t, actions)[i] && FixedOf(s.jobs[i]) == FixedAll(t, actions)[i]
      ensures Counted(s.jobs[i]) == AcceptedAll(t, actions)[i] && Reported(t, actions, i)
    {
      SharesAreReports(t, actions, i);
    }
    SumTotal(s.jobs, InvalidOf, FoundAll(t, actions));
    SumTotal(s.jobs, FixedOf, FixedAll(t, actions));
    SumTotal(s.jobs, Counted, AcceptedAll(t, actions));
  }
}
