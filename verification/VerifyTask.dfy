/** The verify task as an interleaving of its main loop, its verify closures and its fix closures, beside a channel of fix
    closures that it shares with other tasks. An action is one atomic step of one of them; a run is any sequence of actions. */
module VerifyTask {
  import opened Sequences
  import opened VerifyProgress

  /** The common end of a closure: leave the lists, then three counter updates, then wg.Done. */
  datatype Stage = AtEnd | AtCurrent | AtInvalid | AtFixed | AtDone | Finished

  /** A verify closure. Closing.lost says that its fix closure did not fit into the channel. */
  datatype Verifier =
    | Unsent
    | Queued
    | Verifying
    | Checked(invalid: nat)
    | Waiting(invalid: nat)
    | Owing(invalid: nat)
    | Sent
    | Returned
    | Closing(stage: Stage, invalid: nat, lost: bool)

  /** A fix closure: in the channel, taken out of it by the worker that hands it to the fix pool, running, closing. */
  datatype Fixer =
    | NoFix
    | Pending(invalid: nat)
    | Handed(invalid: nat)
    | Fixing(invalid: nat)
    | Closing(stage: Stage, invalid: nat, fixed: nat)

  datatype Job = Job(v: Verifier, f: Fixer)

  datatype Main = Taking(next: nat) | Added(next: nat) | Joining | Over

  /** foreign counts the fix closures of other tasks in the channel. */
  datatype State = State(jobs: seq<Job>, main: Main, wg: int, lists: Lists, current: int, invalid: int, fixed: int, foreign: nat)

  /** The comics, whether damaged images are repaired, how many fix closures the channel holds, and how many of other
      tasks may be in it at a time. */
  datatype Setup = Setup(ids: seq<string>, autoFix: bool, capacity: nat, others: nat)

  datatype Action =
    | Take                          // receive a comic and wg.Add(1)
    | Submit(accepted: bool)        // hand the closure to the pool, or wg.Done on its error
    | Stop                          // the channel is closed or the verify task is canceled
    | Join                          // wg.Wait returns
    | Verify(i: nat, found: nat)    // next step of the verify closure of comic i
    | Send(i: nat)                  // offer its fix closure to the channel
    | Repair(i: nat, fixed: nat)    // next step of its fix closure
    | Others(n: nat)                // other tasks send closures, or the worker takes theirs

  function After(stage: Stage): Stage {
    match stage
    case AtEnd => AtCurrent
    case AtCurrent => AtInvalid
    case AtInvalid => AtFixed
    case AtFixed => AtDone
    case _ => Finished
  }

  function Begin(n: nat): State {
    State(seq(n, _ => Job(Unsent, NoFix)), Taking(0), 0, Lists([], [], []), 0, 0, 0, 0)
  }

  /** The effect on the shared state of passing one closing stage. */
  function Pass(s: State, id: string, stage: Stage, invalid: nat, fixed: nat): State {
    match stage
    case AtEnd => s.(lists := Ended(s.lists, id))
    case AtCurrent => s.(current := s.current + 1)
    case AtInvalid => s.(invalid := s.invalid + invalid)
    case AtFixed => s.(fixed := s.fixed + fixed)
    case AtDone => s.(wg := s.wg - 1)
    case Finished => s
  }

  function StepVerifier(id: string, autoFix: bool, s: State, i: nat, found: nat): State
    requires i < |s.jobs|
  {
    var job := s.jobs[i];
    match job.v
    case Queued => s.(jobs := s.jobs[i := job.(v := Verifying)], lists := Started(s.lists, id))
    case Verifying => s.(jobs := s.jobs[i := job.(v := Checked(found))])
    case Checked(n) =>
      if n > 0 && autoFix
      then s.(jobs := s.jobs[i := job.(v := Waiting(n))], lists := MovedToWait(s.lists, id))
      else s.(jobs := s.jobs[i := job.(v := Verifier.Closing(AtEnd, n, false))])
    case Waiting(n) => s.(jobs := s.jobs[i := job.(v := Owing(n))], wg := s.wg + 1)
    case Sent => s.(jobs := s.jobs[i := job.(v := Returned)], wg := s.wg - 1)
    case Closing(stage, n, lost) =>
      Pass(s.(jobs := s.jobs[i := job.(v := Verifier.Closing(After(stage), n, lost))]), id, stage, n, 0)
    case _ => s
  }

  /** The one worker takes a closure out of the channel only when it has got rid of the one before. */
  predicate HandFree(jobs: seq<Job>) {
    forall i :: 0 <= i < |jobs| ==> !jobs[i].f.Handed?
  }

  function InChannel(j: Job): int { One(j.f.Pending?) }

  function InUse(s: State): int { Sum(s.jobs, InChannel) + s.foreign }

  function StepFixer(id: string, s: State, i: nat, fixed: nat): State
    requires i < |s.jobs|
  {
    var job := s.jobs[i];
    match job.f
    case NoFix => s
    case Pending(n) => if HandFree(s.jobs) then s.(jobs := s.jobs[i := job.(f := Handed(n))]) else s
    case Handed(n) => s.(jobs := s.jobs[i := job.(f := Fixing(n))], lists := MovedToFix(s.lists, id))
    case Fixing(n) => if fixed <= n then s.(jobs := s.jobs[i := job.(f := Fixer.Closing(AtEnd, n, fixed))]) else s
    case Closing(stage, n, k) =>
      Pass(s.(jobs := s.jobs[i := job.(f := Fixer.Closing(After(stage), n, k))]), id, stage, n, k)
  }

  function Step(t: Setup, s: State, a: Action): State
    requires |t.ids| == |s.jobs|
  {
    match a
    case Take => if s.main.Taking? && s.main.next < |t.ids| then s.(main := Added(s.main.next), wg := s.wg + 1) else s
    case Submit(accepted) =>
      if !s.main.Added? || s.main.next >= |t.ids| then s
      else if accepted
      then s.(main := Taking(s.main.next + 1), jobs := s.jobs[s.main.next := Job(Queued, NoFix)])
      else s.(main := Taking(s.main.next + 1), wg := s.wg - 1)
    case Stop => if s.main.Taking? then s.(main := Joining) else s
    case Join => if s.main.Joining? && s.wg == 0 then s.(main := Over) else s
    case Verify(i, found) => if i < |t.ids| then StepVerifier(t.ids[i], t.autoFix, s, i, found) else s
    case Send(i) => if i < |t.ids| && s.jobs[i].v.Owing? then s.(jobs := s.jobs[i := Offered(t, s, s.jobs[i].v.invalid)]) else s
    case Repair(i, fixed) => if i < |t.ids| then StepFixer(t.ids[i], s, i, fixed) else s
    case Others(n) => if n <= t.others && Sum(s.jobs, InChannel) + n <= t.capacity then s.(foreign := n) else s
  }

  /** A closure that finds the channel full is dropped, and the verify closure goes on as if there were none. */
  function Offered(t: Setup, s: State, invalid: nat): Job {
    if InUse(s) < t.capacity then Job(Sent, Pending(invalid)) else Job(Verifier.Closing(AtEnd, invalid, true), NoFix)
  }

  // ---- what each job contributes ----

  datatype Place = Nowhere | InRunning | InWaitFixing | InFixing

  function PlaceOf(j: Job): Place {
    match j.f
    case Pending(_) => InWaitFixing
    case Handed(_) => InWaitFixing
    case Fixing(_) => InFixing
    case Closing(stage, _, _) => if stage.AtEnd? then InFixing else Nowhere
    case NoFix =>
      match j.v
      case Verifying => InRunning
      case Checked(_) => InRunning
      case Waiting(_) => InWaitFixing
      case Owing(_) => InWaitFixing
      case Closing(stage, _, lost) => if !stage.AtEnd? then Nowhere else if lost then InWaitFixing else InRunning
      case _ => Nowhere
  }

  function One(b: bool): int { if b then 1 else 0 }

  function Rank(stage: Stage): nat {
    match stage
    case AtEnd => 0
    case AtCurrent => 1
    case AtInvalid => 2
    case AtFixed => 3
    case AtDone => 4
    case Finished => 5
  }

  function Past(j: Job, rank: nat): bool {
    (j.v.Closing? && Rank(j.v.stage) > rank) || (j.f.Closing? && Rank(j.f.stage) > rank)
  }

  function Counted(j: Job): int { One(Past(j, 1)) }

  function InvalidOf(j: Job): int {
    if !Past(j, 2) then 0 else if j.f.Closing? then j.f.invalid else if j.v.Closing? then j.v.invalid else 0
  }

  function FixedOf(j: Job): int {
    if j.f.Closing? && Rank(j.f.stage) > 3 then j.f.fixed else 0
  }

  /** The closures of the comic that still owe a wg.Done. */
  function OwedOf(j: Job): int {
    One(!j.v.Unsent? && !j.v.Returned? && !(j.v.Closing? && j.v.stage.Finished?))
    + One(j.v.Owing?)
    + One(!j.f.NoFix? && !(j.f.Closing? && j.f.stage.Finished?))
  }

  function LostOf(j: Job): int { One(j.v.Closing? && j.v.lost) }

  /** A fix closure exists only after the verify closure handed it over, and never repairs more than was invalid. */
  predicate JobOk(j: Job) {
    && (!j.f.NoFix? ==> j.v.Sent? || j.v.Returned?)
    && ((j.v.Sent? || j.v.Returned?) ==> !j.f.NoFix?)
    && (j.f.Closing? ==> j.f.fixed <= j.f.invalid)
  }

  function Sum(jobs: seq<Job>, h: Job -> int): int {
    if jobs == [] then 0 else h(jobs[0]) + Sum(jobs[1..], h)
  }

  lemma {:induction false} SumUpdate(jobs: seq<Job>, i: nat, j: Job, h: Job -> int)
    requires i < |jobs|
    ensures Sum(jobs[i := j], h) == Sum(jobs, h) - h(jobs[i]) + h(j)
  {
    if i == 0 {
      assert jobs[0 := j][1..] == jobs[1..];
    } else {
      assert jobs[i := j][1..] == jobs[1..][i - 1 := j];
      SumUpdate(jobs[1..], i - 1, j, h);
    }
  }

  lemma {:induction false} SumAtMost(jobs: seq<Job>, g: Job -> int, h: Job -> int)
    requires forall i :: 0 <= i < |jobs| ==> g(jobs[i]) <= h(jobs[i])
    ensures Sum(jobs, g) <= Sum(jobs, h)
  {
    if jobs != [] {
      forall i | 0 <= i < |jobs[1..]| ensures g(jobs[1..][i]) <= h(jobs[1..][i]) {
        assert jobs[1..][i] == jobs[i + 1];
      }
      SumAtMost(jobs[1..], g, h);
    }
  }

  /** A sum of non-negative parts that is zero has only zero parts. */
  lemma {:induction false} SumZero(jobs: seq<Job>, h: Job -> int, i: nat)
    requires forall k :: 0 <= k < |jobs| ==> h(jobs[k]) >= 0
    requires Sum(jobs, h) <= 0 && i < |jobs|
    ensures h(jobs[i]) == 0
  {
    var rest := jobs[1..];
    forall k | 0 <= k < |rest| ensures h(rest[k]) >= 0 { assert rest[k] == jobs[k + 1]; }
    SumAtMost(rest, Nothing, h);
    SumNothing(rest);
    if i > 0 { SumZero(rest, h, i - 1); }
  }

  function Nothing(j: Job): int { 0 }

  lemma {:induction false} SumNothing(jobs: seq<Job>)
    ensures Sum(jobs, Nothing) == 0
  {
    if jobs != [] { SumNothing(jobs[1..]); }
  }

  // ---- the invariant ----

  ghost predicate Placed(ids: seq<string>, jobs: seq<Job>, l: Lists)
    requires |ids| == |jobs|
  {
    && NoDup(l.running) && NoDup(l.waitFixing) && NoDup(l.fixing)
    && (forall x :: x in l.running || x in l.waitFixing || x in l.fixing ==> x in ids)
    && (forall i :: 0 <= i < |ids| ==>
          && (ids[i] in l.running <==> PlaceOf(jobs[i]).InRunning?)
          && (ids[i] in l.waitFixing <==> PlaceOf(jobs[i]).InWaitFixing?)
          && (ids[i] in l.fixing <==> PlaceOf(jobs[i]).InFixing?))
  }

  /** The shared counters are the sums of what the jobs contribute. */
  ghost predicate Tallied(s: State) {
    && s.wg == Sum(s.jobs, OwedOf) + Sum(s.jobs, LostOf) + One(s.main.Added?)
    && s.current == Sum(s.jobs, Counted)
    && s.invalid == Sum(s.jobs, InvalidOf)
    && s.fixed == Sum(s.jobs, FixedOf)
  }

  /** s' differs from s in job i, which becomes j, and in the counters by the change of its share. */
  ghost predicate Shifted(s: State, s': State, i: nat, j: Job)
    requires i < |s.jobs|
  {
    && s'.jobs == s.jobs[i := j]
    && s'.wg - One(s'.main.Added?) == s.wg - One(s.main.Added?) + OwedOf(j) - OwedOf(s.jobs[i]) + LostOf(j) - LostOf(s.jobs[i])
    && s'.current == s.current + Counted(j) - Counted(s.jobs[i])
    && s'.invalid == s.invalid + InvalidOf(j) - InvalidOf(s.jobs[i])
    && s'.fixed == s.fixed + FixedOf(j) - FixedOf(s.jobs[i])
  }

  lemma ShiftKeepsTally(s: State, s': State, i: nat, j: Job)
    requires i < |s.jobs| && Tallied(s) && Shifted(s, s', i, j)
    ensures Tallied(s')
  {
    SumUpdate(s.jobs, i, j, OwedOf);
    SumUpdate(s.jobs, i, j, LostOf);
    SumUpdate(s.jobs, i, j, Counted);
    SumUpdate(s.jobs, i, j, InvalidOf);
    SumUpdate(s.jobs, i, j, FixedOf);
  }

  ghost predicate Inv(ids: seq<string>, s: State) {
    && NoDup(ids) && |ids| == |s.jobs|
    && (forall i :: 0 <= i < |s.jobs| ==> JobOk(s.jobs[i]))
    && Placed(ids, s.jobs, s.lists)
    && Tallied(s)
    && (s.main.Taking? || s.main.Added? ==>
          s.main.next <= |ids| - One(s.main.Added?) && forall i :: s.main.next <= i < |ids| ==> s.jobs[i] == Job(Unsent, NoFix))
    && (s.main.Over? ==> s.wg == 0)
  }

  lemma {:induction false} BeginInv(ids: seq<string>)
    requires NoDup(ids)
    ensures Inv(ids, Begin(|ids|))
  {
    var s := Begin(|ids|);
    SumNothing(s.jobs);
    SumAtMost(s.jobs, OwedOf, Nothing);
    SumAtMost(s.jobs, Nothing, OwedOf);
    SumAtMost(s.jobs, LostOf, Nothing);
    SumAtMost(s.jobs, Nothing, LostOf);
    SumAtMost(s.jobs, Counted, Nothing);
    SumAtMost(s.jobs, Nothing, Counted);
    SumAtMost(s.jobs, InvalidOf, Nothing);
    SumAtMost(s.jobs, Nothing, InvalidOf);
    SumAtMost(s.jobs, FixedOf, Nothing);
    SumAtMost(s.jobs, Nothing, FixedOf);
  }

  /** The verify task is not over while some closure owes a wg.Done. */
  lemma OwedBlocks(ids: seq<string>, s: State, i: nat)
    requires Inv(ids, s) && i < |s.jobs| && OwedOf(s.jobs[i]) + LostOf(s.jobs[i]) > 0
    ensures s.wg > 0 && !s.main.Over?
  {
    if s.wg <= 0 {
      SumAtMost(s.jobs, Nothing, OwedOf);
      SumAtMost(s.jobs, Nothing, LostOf);
      SumNothing(s.jobs);
      SumZero(s.jobs, OwedOf, i);
      SumZero(s.jobs, LostOf, i);
    }
  }

  /** A step of one closure that moves its comic between the lists and changes the counters by its own share. */
  lemma JobStep(ids: seq<string>, s: State, s': State, i: nat, j: Job)
    requires Inv(ids, s) && i < |ids| && OwedOf(s.jobs[i]) > 0
    requires Shifted(s, s', i, j) && s'.main == s.main && JobOk(j)
    requires Placed(ids, s'.jobs, s'.lists)
    ensures Inv(ids, s')
  {
    OwedBlocks(ids, s, i);
    ShiftKeepsTally(s, s', i, j);
  }

  // ---- how the list operations move one comic ----

  lemma MoveStart(ids: seq<string>, jobs: seq<Job>, l: Lists, i: nat, j: Job)
    requires |ids| == |jobs| && NoDup(ids) && Placed(ids, jobs, l) && i < |ids|
    requires PlaceOf(jobs[i]).Nowhere? && PlaceOf(j).InRunning?
    ensures Placed(ids, jobs[i := j], Started(l, ids[i]))
  {
  }

  lemma MoveWait(ids: seq<string>, jobs: seq<Job>, l: Lists, i: nat, j: Job)
    requires |ids| == |jobs| && NoDup(ids) && Placed(ids, jobs, l) && i < |ids|
    requires PlaceOf(jobs[i]).InRunning? && PlaceOf(j).InWaitFixing?
    ensures Placed(ids, jobs[i := j], MovedToWait(l, ids[i]))
  {
    WithoutMembers(l.running, ids[i]);
  }

  lemma MoveFix(ids: seq<string>, jobs: seq<Job>, l: Lists, i: nat, j: Job)
    requires |ids| == |jobs| && NoDup(ids) && Placed(ids, jobs, l) && i < |ids|
    requires PlaceOf(jobs[i]).InWaitFixing? && PlaceOf(j).InFixing?
    ensures Placed(ids, jobs[i := j], MovedToFix(l, ids[i]))
  {
    WithoutMembers(l.waitFixing, ids[i]);
  }

  lemma MoveEnd(ids: seq<string>, jobs: seq<Job>, l: Lists, i: nat, j: Job)
    requires |ids| == |jobs| && NoDup(ids) && Placed(ids, jobs, l) && i < |ids|
    requires !PlaceOf(jobs[i]).Nowhere? && PlaceOf(j).Nowhere?
    ensures Placed(ids, jobs[i := j], Ended(l, ids[i]))
  {
    WithoutMembers(l.running, ids[i]);
    WithoutMembers(l.waitFixing, ids[i]);
    WithoutMembers(l.fixing, ids[i]);
  }

  lemma MoveNone(ids: seq<string>, jobs: seq<Job>, l: Lists, i: nat, j: Job)
    requires |ids| == |jobs| && Placed(ids, jobs, l) && i < |ids|
    requires PlaceOf(jobs[i]) == PlaceOf(j)
    ensures Placed(ids, jobs[i := j], l)
  {
  }

  // ---- every action keeps the invariant ----

  /** A verify closure that can still step changes only its own share. */
  lemma VerifyShifts(id: string, autoFix: bool, s: State, i: nat, found: nat)
    requires i < |s.jobs| && JobOk(s.jobs[i])
    ensures var s' := StepVerifier(id, autoFix, s, i, found);
      s' == s || (OwedOf(s.jobs[i]) > 0 && s'.main == s.main && JobOk(s'.jobs[i]) && Shifted(s, s', i, s'.jobs[i]))
  {
    if s.jobs[i].v.Closing? && s.jobs[i].v.stage.Finished? {
      assert s.jobs[i := s.jobs[i]] == s.jobs;
    }
  }

  lemma VerifyMoves(t: Setup, s: State, i: nat, found: nat)
    requires |t.ids| == |s.jobs| && NoDup(t.ids) && Placed(t.ids, s.jobs, s.lists) && i < |t.ids| && JobOk(s.jobs[i])
    ensures var s' := StepVerifier(t.ids[i], t.autoFix, s, i, found); Placed(t.ids, s'.jobs, s'.lists)
  {
    var s' := StepVerifier(t.ids[i], t.autoFix, s, i, found);
    var j, j' := s.jobs[i], s'.jobs[i];
    if j.v.Queued? { MoveStart(t.ids, s.jobs, s.lists, i, j'); }
    else if j.v.Checked? && j'.v.Waiting? { MoveWait(t.ids, s.jobs, s.lists, i, j'); }
    else if j.v.Closing? && j.v.stage.AtEnd? { MoveEnd(t.ids, s.jobs, s.lists, i, j'); }
    else { MoveNone(t.ids, s.jobs, s.lists, i, j'); }
  }

  lemma RepairShifts(id: string, s: State, i: nat, fixed: nat)
    requires i < |s.jobs| && JobOk(s.jobs[i])
    ensures var s' := StepFixer(id, s, i, fixed);
      s' == s || (OwedOf(s.jobs[i]) > 0 && s'.main == s.main && JobOk(s'.jobs[i]) && Shifted(s, s', i, s'.jobs[i]))
  {
    if s.jobs[i].f.Closing? && s.jobs[i].f.stage.Finished? {
      assert s.jobs[i := s.jobs[i]] == s.jobs;
    }
  }

  lemma RepairMoves(ids: seq<string>, s: State, i: nat, fixed: nat)
    requires |ids| == |s.jobs| && NoDup(ids) && Placed(ids, s.jobs, s.lists) && i < |ids| && JobOk(s.jobs[i])
    ensures var s' := StepFixer(ids[i], s, i, fixed); Placed(ids, s'.jobs, s'.lists)
  {
    var s' := StepFixer(ids[i], s, i, fixed);
    var j, j' := s.jobs[i], s'.jobs[i];
    if j.f.Handed? { MoveFix(ids, s.jobs, s.lists, i, j'); }
    else if j.f.Closing? && j.f.stage.AtEnd? { MoveEnd(ids, s.jobs, s.lists, i, j'); }
    else { MoveNone(ids, s.jobs, s.lists, i, j'); }
  }

  lemma SendKeeps(t: Setup, s: State, i: nat)
    requires Inv(t.ids, s) && i < |t.ids| && s.jobs[i].v.Owing?
    ensures Inv(t.ids, Step(t, s, Send(i)))
  {
    var s' := Step(t, s, Send(i));
    assert JobOk(s.jobs[i]);
    MoveNone(t.ids, s.jobs, s.lists, i, s'.jobs[i]);
    JobStep(t.ids, s, s', i, s'.jobs[i]);
  }

  lemma SubmitKeeps(t: Setup, s: State)
    requires Inv(t.ids, s) && s.main.Added?
    ensures Inv(t.ids, Step(t, s, Submit(true)))
  {
    var i, j, s' := s.main.next, Job(Queued, NoFix), Step(t, s, Submit(true));
    MoveNone(t.ids, s.jobs, s.lists, i, j);
    ShiftKeepsTally(s, s', i, j);
  }

  lemma StepKeeps(t: Setup, s: State, a: Action)
    requires Inv(t.ids, s)
    ensures Inv(t.ids, Step(t, s, a))
  {
    var s' := Step(t, s, a);
    if s' != s {
      match a
      case Verify(i, found) =>
        VerifyShifts(t.ids[i], t.autoFix, s, i, found);
        VerifyMoves(t, s, i, found);
        JobStep(t.ids, s, s', i, s'.jobs[i]);
      case Repair(i, fixed) =>
        RepairShifts(t.ids[i], s, i, fixed);
        RepairMoves(t.ids, s, i, fixed);
        JobStep(t.ids, s, s', i, s'.jobs[i]);
      case Send(i) => SendKeeps(t, s, i);
      case Submit(accepted) => if accepted { SubmitKeeps(t, s); } else { SameTally(s, s'); }
      case _ => SameTally(s, s');
    }
  }

  lemma SameTally(s: State, s': State)
    requires Tallied(s) && s'.jobs == s.jobs
    requires s'.wg - One(s'.main.Added?) == s.wg - One(s.main.Added?)
    requires s'.current == s.current && s'.invalid == s.invalid && s'.fixed == s.fixed
    ensures Tallied(s')
  {
  }

  function Run(t: Setup, s: State, actions: seq<Action>): (r: State)
    requires |t.ids| == |s.jobs|
    ensures |r.jobs| == |t.ids|
    decreases |actions|
  {
    if actions == [] then s else Run(t, Step(t, s, actions[0]), actions[1..])
  }

  lemma {:induction false} RunKeeps(t: Setup, s: State, actions: seq<Action>)
    requires Inv(t.ids, s)
    ensures Inv(t.ids, Run(t, s, actions))
    decreases |actions|
  {
    if actions != [] {
      StepKeeps(t, s, actions[0]);
      RunKeeps(t, Step(t, s, actions[0]), actions[1..]);
    }
  }

  // ---- what holds in every state of every run ----

  lemma {:induction false} NoDupTimes(list: seq<string>, x: string)
    requires NoDup(list)
    ensures Times(list, x) == if x in list then 1 else 0
  {
    if list != [] {
      assert list == [list[0]] + list[1..];
      NoDupTimes(list[1..], x);
    }
  }

  /** For distinct comic ids, every interleaving and every point of it: a comic occurs at most once in the three
      lists together, no more images are counted fixed than invalid, every comic is counted at most once, and the
      wait group is the number of closures that still owe a Done, of Adds whose fix closure was lost to a full
      channel, and of the one Add whose closure is being submitted. */
  lemma TaskSafety(t: Setup, actions: seq<Action>, i: nat)
    requires NoDup(t.ids) && i < |t.ids|
    ensures var s := Run(t, Begin(|t.ids|), actions);
      && Times(s.lists.running, t.ids[i]) + Times(s.lists.waitFixing, t.ids[i]) + Times(s.lists.fixing, t.ids[i]) <= 1
      && s.fixed <= s.invalid
      && s.current == Sum(s.jobs, Counted) && 0 <= Counted(s.jobs[i]) <= 1
      && s.wg == Sum(s.jobs, OwedOf) + Sum(s.jobs, LostOf) + One(s.main.Added?)
  {
    BeginInv(t.ids);
    RunKeeps(t, Begin(|t.ids|), actions);
    var s := Run(t, Begin(|t.ids|), actions);
    NoDupTimes(s.lists.running, t.ids[i]);
    NoDupTimes(s.lists.waitFixing, t.ids[i]);
    NoDupTimes(s.lists.fixing, t.ids[i]);
    forall k | 0 <= k < |s.jobs| ensures FixedOf(s.jobs[k]) <= InvalidOf(s.jobs[k]) { assert JobOk(s.jobs[k]); }
    SumAtMost(s.jobs, FixedOf, InvalidOf);
  }

  function Accepted(j: Job): int { One(!j.v.Unsent?) }

  /** When the final Wait has returned, no fix closure was lost, the lists are empty and every comic handed to the
      pool has been counted exactly once. */
  lemma OverMeansComplete(ids: seq<string>, s: State)
    requires Inv(ids, s) && s.main.Over?
    ensures Sum(s.jobs, LostOf) == 0
    ensures s.lists == Lists([], [], [])
    ensures s.current == Sum(s.jobs, Accepted)
  {
    forall i | 0 <= i < |s.jobs|
      ensures OwedOf(s.jobs[i]) == 0 && LostOf(s.jobs[i]) == 0
      ensures PlaceOf(s.jobs[i]).Nowhere? && Counted(s.jobs[i]) == Accepted(s.jobs[i])
    {
      if OwedOf(s.jobs[i]) + LostOf(s.jobs[i]) > 0 { OwedBlocks(ids, s, i); }
      assert JobOk(s.jobs[i]);
    }
    SumAtMost(s.jobs, LostOf, Nothing);
    SumAtMost(s.jobs, Nothing, LostOf);
    SumNothing(s.jobs);
    SumAtMost(s.jobs, Counted, Accepted);
    SumAtMost(s.jobs, Accepted, Counted);
    forall x ensures x !in s.lists.running && x !in s.lists.waitFixing && x !in s.lists.fixing {
      if x in ids {
        var i :| 0 <= i < |ids| && ids[i] == x;
        assert PlaceOf(s.jobs[i]).Nowhere?;
      }
    }
    NonEmptyHasMember(s.lists.running);
    NonEmptyHasMember(s.lists.waitFixing);
    NonEmptyHasMember(s.lists.fixing);
  }

  // ---- every run ends ----

  function WorkOf(j: Job): int {
    (match j.v
     case Unsent => 30
     case Queued => 29
     case Verifying => 28
     case Checked(_) => 27
     case Waiting(_) => 26
     case Owing(_) => 25
     case Sent => 1
     case Returned => 0
     case Closing(stage, _, _) => 5 - Rank(stage))
    +
    (match j.f
     case NoFix => 0
     case Pending(_) => 8
     case Handed(_) => 7
     case Fixing(_) => 6
     case Closing(stage, _, _) => 5 - Rank(stage))
  }

  function MainWork(n: nat, m: Main): int {
    match m
    case Taking(next) => 2 * (n - next) + 2
    case Added(next) => 2 * (n - next) + 1
    case Joining => 1
    case Over => 0
  }

  function Work(s: State): int {
    Sum(s.jobs, WorkOf) + MainWork(|s.jobs|, s.main)
  }

  lemma VerifyWorks(id: string, autoFix: bool, s: State, i: nat, found: nat)
    requires i < |s.jobs|
    ensures var s' := StepVerifier(id, autoFix, s, i, found);
      s' == s || (s'.main == s.main && s'.jobs == s.jobs[i := s'.jobs[i]] && WorkOf(s'.jobs[i]) < WorkOf(s.jobs[i]))
  {
    match s.jobs[i].v
    case Closing(stage, _, _) => if stage.Finished? { assert s.jobs[i := s.jobs[i]] == s.jobs; }
    case _ =>
  }

  lemma RepairWorks(id: string, s: State, i: nat, fixed: nat)
    requires i < |s.jobs|
    ensures var s' := StepFixer(id, s, i, fixed);
      s' == s || (s'.main == s.main && s'.jobs == s.jobs[i := s'.jobs[i]] && WorkOf(s'.jobs[i]) < WorkOf(s.jobs[i]))
  {
    assert s.jobs[i := s.jobs[i]] == s.jobs;
  }

  lemma JobWork(s: State, s': State, i: nat)
    requires i < |s.jobs| && |s'.jobs| == |s.jobs| && s'.jobs == s.jobs[i := s'.jobs[i]]
    requires WorkOf(s'.jobs[i]) < WorkOf(s.jobs[i]) && MainWork(|s.jobs|, s'.main) <= MainWork(|s.jobs|, s.main)
    ensures Work(s') < Work(s)
  {
    SumUpdate(s.jobs, i, s'.jobs[i], WorkOf);
  }

  lemma WorkNotNegative(ids: seq<string>, s: State)
    requires Inv(ids, s)
    ensures Work(s) >= 0
  {
    SumAtMost(s.jobs, Nothing, WorkOf);
    SumNothing(s.jobs);
  }

  /** Every effective action of the task uses up work, which is never negative, and actions of other tasks use up none: no
      run has infinitely many effective steps of the task. */
  lemma WorkDecreases(t: Setup, s: State, a: Action)
    requires Inv(t.ids, s)
    ensures Work(s) >= 0
    ensures !a.Others? && Step(t, s, a) != s ==> Work(Step(t, s, a)) < Work(s)
    ensures a.Others? ==> Work(Step(t, s, a)) == Work(s)
  {
    WorkNotNegative(t.ids, s);
    var s' := Step(t, s, a);
    if s' != s {
      match a
      case Verify(i, found) =>
        VerifyWorks(t.ids[i], t.autoFix, s, i, found);
        JobWork(s, s', i);
      case Repair(i, fixed) =>
        RepairWorks(t.ids[i], s, i, fixed);
        JobWork(s, s', i);
      case Send(i) =>
        assert JobOk(s.jobs[i]);
        JobWork(s, s', i);
      case Submit(accepted) =>
        if accepted { JobWork(s, s', s.main.next); }
      case _ =>
    }
  }

  /** No action of the task has an effect any more. */
  ghost predicate Stuck(t: Setup, s: State)
    requires |t.ids| == |s.jobs|
  {
    forall a: Action :: !a.Others? ==> Step(t, s, a) == s
  }

  /** What a closure that owes a Done does next, or what the worker does before it takes it. */
  lemma OwedCanStep(t: Setup, s: State, i: nat)
    requires |t.ids| == |s.jobs| && i < |t.ids| && OwedOf(s.jobs[i]) > 0
    ensures exists a: Action :: !a.Others? && Step(t, s, a) != s
  {
    var j := s.jobs[i];
    if j.f.Pending? && !HandFree(s.jobs) {
      var k :| 0 <= k < |s.jobs| && s.jobs[k].f.Handed?;
      assert Step(t, s, Repair(k, 0)).jobs[k] != s.jobs[k];
    } else {
      var a := if !j.f.NoFix? && !(j.f.Closing? && j.f.stage.Finished?) then Repair(i, 0)
               else if j.v.Owing? then Send(i)
               else Verify(i, 0);
      assert Step(t, s, a).jobs[i] != j;
    }
  }

  /** A run that can go no further has ended, unless a full channel swallowed a fix closure: then it waits forever. */
  lemma EndsUnlessLost(t: Setup, s: State)
    requires Inv(t.ids, s) && Stuck(t, s)
    ensures s.main.Over? <==> Sum(s.jobs, LostOf) == 0
  {
    if s.main.Over? {
      OverMeansComplete(t.ids, s);
    } else if Sum(s.jobs, LostOf) == 0 {
      assert Step(t, s, Stop) == s && Step(t, s, Submit(false)) == s && Step(t, s, Join) == s;
      assert s.main.Joining? && s.wg != 0;
      SumAtMost(s.jobs, Nothing, OwedOf);
      SumNothing(s.jobs);
      if forall i :: 0 <= i < |s.jobs| ==> OwedOf(s.jobs[i]) <= 0 {
        SumAtMost(s.jobs, OwedOf, Nothing);
        assert false;
      }
      var i :| 0 <= i < |s.jobs| && OwedOf(s.jobs[i]) > 0;
      OwedCanStep(t, s, i);
    }
  }

  // ---- when a fix closure can be lost ----

  /** Nothing is to be fixed, or the channel has room for a closure of every comic beside those of other tasks. */
  predicate Roomy(t: Setup) {
    !t.autoFix || |t.ids| == 0 || |t.ids| + t.others <= t.capacity
  }

  /** Without repairs no closure gets as far as the channel. */
  predicate Unlost(t: Setup, j: Job) {
    LostOf(j) == 0 && (!t.autoFix ==> !j.v.Waiting? && !j.v.Owing?)
  }

  ghost predicate Clean(t: Setup, s: State) {
    s.foreign <= t.others && forall i :: 0 <= i < |s.jobs| ==> Unlost(t, s.jobs[i])
  }

  lemma {:induction false} SumOnes(jobs: seq<Job>, h: Job -> int)
    requires forall k :: 0 <= k < |jobs| ==> h(jobs[k]) <= 1
    ensures Sum(jobs, h) <= |jobs|
  {
    if jobs != [] {
      forall k | 0 <= k < |jobs[1..]| ensures h(jobs[1..][k]) <= 1 { assert jobs[1..][k] == jobs[k + 1]; }
      SumOnes(jobs[1..], h);
    }
  }

  /** A closure that is about to be sent is not in the channel yet. */
  lemma RoomForOne(t: Setup, s: State, i: nat)
    requires |s.jobs| == |t.ids| && i < |s.jobs| && s.jobs[i].f.NoFix? && s.foreign <= t.others
    ensures InUse(s) <= |t.ids| - 1 + t.others
  {
    var j := s.jobs[i].(f := Pending(0));
    SumUpdate(s.jobs, i, j, InChannel);
    SumOnes(s.jobs[i := j], InChannel);
  }

  /** A step of closure i leaves the jobs of others alone. */
  lemma CleanJob(t: Setup, s: State, s': State, i: nat)
    requires Clean(t, s) && i < |s.jobs| && |s'.jobs| == |s.jobs| && s'.jobs == s.jobs[i := s'.jobs[i]]
    requires Unlost(t, s'.jobs[i]) && s'.foreign <= t.others
    ensures Clean(t, s')
  {
  }

  lemma CleanSend(t: Setup, s: State, i: nat)
    requires Inv(t.ids, s) && Clean(t, s) && Roomy(t) && i < |t.ids| && s.jobs[i].v.Owing?
    ensures Clean(t, Step(t, s, Send(i)))
  {
    assert JobOk(s.jobs[i]) && Unlost(t, s.jobs[i]);
    RoomForOne(t, s, i);
    CleanJob(t, s, Step(t, s, Send(i)), i);
  }

  lemma CleanVerify(t: Setup, s: State, i: nat, found: nat)
    requires |s.jobs| == |t.ids| && i < |t.ids| && Clean(t, s)
    ensures Clean(t, Step(t, s, Verify(i, found)))
  {
    assert Unlost(t, s.jobs[i]);
    VerifyWorks(t.ids[i], t.autoFix, s, i, found);
    if Step(t, s, Verify(i, found)) != s { CleanJob(t, s, Step(t, s, Verify(i, found)), i); }
  }

  lemma CleanRepair(t: Setup, s: State, i: nat, fixed: nat)
    requires |s.jobs| == |t.ids| && i < |t.ids| && Clean(t, s)
    ensures Clean(t, Step(t, s, Repair(i, fixed)))
  {
    assert Unlost(t, s.jobs[i]);
    RepairWorks(t.ids[i], s, i, fixed);
    if Step(t, s, Repair(i, fixed)) != s { CleanJob(t, s, Step(t, s, Repair(i, fixed)), i); }
  }

  lemma CleanStep(t: Setup, s: State, a: Action)
    requires Inv(t.ids, s) && Clean(t, s) && Roomy(t)
    ensures Clean(t, Step(t, s, a))
  {
    if Step(t, s, a) != s {
      match a
      case Send(i) => CleanSend(t, s, i);
      case Verify(i, found) => CleanVerify(t, s, i, found);
      case Repair(i, fixed) => CleanRepair(t, s, i, fixed);
      case Submit(accepted) => if accepted { CleanJob(t, s, Step(t, s, a), s.main.next); }
      case _ =>
    }
  }

  /** Then no interleaving loses a closure. */
  lemma {:induction false} RoomyLosesNone(t: Setup, s: State, actions: seq<Action>)
    requires Inv(t.ids, s) && Clean(t, s) && Roomy(t)
    ensures Clean(t, Run(t, s, actions))
    decreases |actions|
  {
    if actions != [] {
      StepKeeps(t, s, actions[0]);
      CleanStep(t, s, actions[0]);
      RoomyLosesNone(t, Step(t, s, actions[0]), actions[1..]);
    }
  }

  lemma CleanMeans(t: Setup, s: State)
    requires Clean(t, s)
    ensures Sum(s.jobs, LostOf) == 0
  {
    forall i | 0 <= i < |s.jobs| ensures LostOf(s.jobs[i]) == 0 { assert Unlost(t, s.jobs[i]); }
    SumAtMost(s.jobs, LostOf, Nothing);
    SumAtMost(s.jobs, Nothing, LostOf);
    SumNothing(s.jobs);
  }

  ghost predicate Reaches(t: Setup, s: State, s': State)
    requires |t.ids| == |s.jobs|
  {
    exists actions :: Run(t, s, actions) == s'
  }

  lemma {:induction false} RunAppend(t: Setup, s: State, actions: seq<Action>, a: Action)
    requires |t.ids| == |s.jobs|
    ensures Run(t, s, actions + [a]) == Step(t, Run(t, s, actions), a)
    decreases |actions|
  {
    if actions == [] {
      assert [] + [a] == [a];
    } else {
      assert (actions + [a])[1..] == actions[1..] + [a];
      RunAppend(t, Step(t, s, actions[0]), actions[1..], a);
    }
  }

  lemma ReachesNext(t: Setup, s: State, s': State, a: Action)
    requires |t.ids| == |s.jobs| && Reaches(t, s, s')
    ensures |t.ids| == |s'.jobs| && Reaches(t, s, Step(t, s', a))
  {
    var actions :| Run(t, s, actions) == s';
    RunAppend(t, s, actions, a);
  }

  lemma ReachesSelf(t: Setup, s: State)
    requires |t.ids| == |s.jobs|
    ensures Reaches(t, s, s)
  {
    assert Run(t, s, []) == s;
  }

  /** The first k verify closures have returned, their fix closures wait in the channel beside foreign ones, and the next
      comic is to be taken. */
  ghost predicate Filled(t: Setup, s: State, k: nat) {
    && |s.jobs| == |t.ids| && k <= |t.ids| && s.main == Taking(k)
    && (forall i :: 0 <= i < k ==> s.jobs[i] == Job(Returned, Pending(1)))
    && (forall i :: k <= i < |t.ids| ==> s.jobs[i] == Job(Unsent, NoFix))
  }

  lemma {:induction false} FilledSum(jobs: seq<Job>, k: nat)
    requires k <= |jobs| && (forall i :: 0 <= i < k ==> jobs[i].f.Pending?) && (forall i :: k <= i < |jobs| ==> !jobs[i].f.Pending?)
    ensures Sum(jobs, InChannel) == k
  {
    if jobs != [] { FilledSum(jobs[1..], if k == 0 then 0 else k - 1); }
  }

  /** Comic k has been taken, and its verify closure has come as far as v. */
  ghost predicate At(t: Setup, s: State, k: nat, v: Verifier) {
    && |s.jobs| == |t.ids| && k < |t.ids| && s.main == Taking(k + 1) && s.jobs[k] == Job(v, NoFix)
    && (forall i :: 0 <= i < k ==> s.jobs[i] == Job(Returned, Pending(1)))
    && (forall i :: k < i < |t.ids| ==> s.jobs[i] == Job(Unsent, NoFix))
  }

  lemma Taken(t: Setup, s0: State, s: State, k: nat) returns (r: State)
    requires |s0.jobs| == |t.ids| && Reaches(t, s0, s) && Filled(t, s, k) && k < |t.ids|
    ensures Reaches(t, s0, r) && At(t, r, k, Queued) && r.foreign == s.foreign
  {
    ReachesNext(t, s0, s, Take);
    r := Step(t, s, Take);
    ReachesNext(t, s0, r, Submit(true));
    r := Step(t, r, Submit(true));
  }

  /** The way of a verify closure that finds one damaged image. */
  function Onward(v: Verifier): Verifier {
    match v
    case Queued => Verifying
    case Verifying => Checked(1)
    case Checked(n) => Waiting(n)
    case Waiting(n) => Owing(n)
    case _ => v
  }

  lemma Verified(t: Setup, s0: State, s: State, k: nat, v: Verifier) returns (r: State)
    requires |s0.jobs| == |t.ids| && Reaches(t, s0, s) && At(t, s, k, v) && t.autoFix
    requires v == Queued || v == Verifying || v == Checked(1) || v == Waiting(1)
    ensures Reaches(t, s0, r) && At(t, r, k, Onward(v)) && r.foreign == s.foreign
  {
    ReachesNext(t, s0, s, Verify(k, 1));
    r := Step(t, s, Verify(k, 1));
  }

  /** Comic k is taken, verified with one damaged image, and about to be sent. */
  lemma Readied(t: Setup, s0: State, s: State, k: nat) returns (r: State)
    requires |s0.jobs| == |t.ids| && Reaches(t, s0, s) && Filled(t, s, k) && k < |t.ids| && t.autoFix
    ensures Reaches(t, s0, r) && At(t, r, k, Owing(1)) && r.foreign == s.foreign
  {
    r := Taken(t, s0, s, k);
    r := Verified(t, s0, r, k, Queued);
    r := Verified(t, s0, r, k, Verifying);
    r := Verified(t, s0, r, k, Checked(1));
    r := Verified(t, s0, r, k, Waiting(1));
  }

  /** One comic after the other fills the channel until one finds it full. */
  lemma FillsUp(t: Setup, s0: State, s: State, k: nat) returns (lost: State)
    requires |s0.jobs| == |t.ids| && Reaches(t, s0, s) && Filled(t, s, k) && t.autoFix
    requires k + s.foreign <= t.capacity < |t.ids| + s.foreign
    ensures Reaches(t, s0, lost) && exists i :: 0 <= i < |lost.jobs| && LostOf(lost.jobs[i]) > 0
    decreases |t.ids| - k
  {
    var r := Readied(t, s0, s, k);
    ReachesNext(t, s0, r, Send(k));
    FilledSum(r.jobs, k);
    var s' := Step(t, r, Send(k));
    if k + s.foreign < t.capacity {
      ReachesNext(t, s0, s', Verify(k, 0));
      SentReturns(t, r, k);
      lost := FillsUp(t, s0, Step(t, s', Verify(k, 0)), k + 1);
    } else {
      lost := s';
      assert LostOf(lost.jobs[k]) > 0;
    }
  }

  /** A closure that finds room is sent, and its verify closure returns. */
  lemma SentReturns(t: Setup, r: State, k: nat)
    requires At(t, r, k, Owing(1)) && InUse(r) < t.capacity
    ensures var s' := Step(t, Step(t, r, Send(k)), Verify(k, 0)); Filled(t, s', k + 1) && s'.foreign == r.foreign
  {
  }

  /** If the channel has less room, a run that loses one exists: other tasks put in theirs, then every comic is found
      damaged, and the worker does nothing meanwhile. */
  lemma TightMayLose(t: Setup) returns (lost: State)
    requires !Roomy(t)
    ensures Reaches(t, Begin(|t.ids|), lost) && exists i :: 0 <= i < |lost.jobs| && LostOf(lost.jobs[i]) > 0
  {
    var s0 := Begin(|t.ids|);
    var n := if t.others < t.capacity then t.others else t.capacity;
    FilledSum(s0.jobs, 0);
    ReachesSelf(t, s0);
    ReachesNext(t, s0, s0, Others(n));
    lost := FillsUp(t, s0, Step(t, s0, Others(n)), 0);
  }

  lemma LostStays(t: Setup, s: State, a: Action, i: nat)
    requires |t.ids| == |s.jobs| && i < |s.jobs| && JobOk(s.jobs[i]) && LostOf(s.jobs[i]) > 0
    requires s.main.Added? ==> s.main.next < |s.jobs| && !s.jobs[s.main.next].v.Closing?
    ensures LostOf(Step(t, s, a).jobs[i]) > 0
  {
  }

  /** From every state some run goes on until it can go no further. */
  lemma {:induction false} GoesOn(t: Setup, s0: State, s: State, i: nat) returns (end: State)
    requires |s0.jobs| == |t.ids| && Reaches(t, s0, s) && Inv(t.ids, s) && i < |s.jobs| && LostOf(s.jobs[i]) > 0
    ensures Reaches(t, s0, end) && Inv(t.ids, end) && Stuck(t, end) && i < |end.jobs| && LostOf(end.jobs[i]) > 0
    decreases Work(s)
  {
    WorkNotNegative(t.ids, s);
    if Stuck(t, s) {
      end := s;
    } else {
      var a: Action :| !a.Others? && Step(t, s, a) != s;
      WorkDecreases(t, s, a);
      StepKeeps(t, s, a);
      WorkNotNegative(t.ids, Step(t, s, a));
      LostStays(t, s, a, i);
      ReachesNext(t, s0, s, a);
      end := GoesOn(t, s0, Step(t, s, a), i);
    }
  }

  lemma RoomyEnds(t: Setup, actions: seq<Action>)
    requires NoDup(t.ids) && Roomy(t) && Stuck(t, Run(t, Begin(|t.ids|), actions))
    ensures Run(t, Begin(|t.ids|), actions).main.Over?
  {
    var s0 := Begin(|t.ids|);
    BeginInv(t.ids);
    RunKeeps(t, s0, actions);
    RoomyLosesNone(t, s0, actions);
    CleanMeans(t, Run(t, s0, actions));
    EndsUnlessLost(t, Run(t, s0, actions));
  }

  lemma ReachedKeeps(t: Setup, s: State)
    requires NoDup(t.ids) && Reaches(t, Begin(|t.ids|), s)
    ensures Inv(t.ids, s)
  {
    var actions :| Run(t, Begin(|t.ids|), actions) == s;
    BeginInv(t.ids);
    RunKeeps(t, Begin(|t.ids|), actions);
  }

  lemma TightMayHang(t: Setup) returns (actions: seq<Action>)
    requires NoDup(t.ids) && !Roomy(t)
    ensures Stuck(t, Run(t, Begin(|t.ids|), actions)) && !Run(t, Begin(|t.ids|), actions).main.Over?
  {
    var lost := TightMayLose(t);
    var i :| 0 <= i < |lost.jobs| && LostOf(lost.jobs[i]) > 0;
    ReachedKeeps(t, lost);
    var end := GoesOn(t, Begin(|t.ids|), lost, i);
    OwedBlocks(t.ids, end, i);
    actions :| Run(t, Begin(|t.ids|), actions) == end;
  }

  /** Every run of the task that can go no further is over if and only if the channel has room for all closures: this can
      be read off before the run. */
  lemma EndsExact(t: Setup)
    requires NoDup(t.ids)
    ensures (forall actions :: Stuck(t, Run(t, Begin(|t.ids|), actions)) ==> Run(t, Begin(|t.ids|), actions).main.Over?)
            <==> Roomy(t)
  {
    if Roomy(t) {
      forall actions | Stuck(t, Run(t, Begin(|t.ids|), actions)) ensures Run(t, Begin(|t.ids|), actions).main.Over? {
        RoomyEnds(t, actions);
      }
    } else {
      var actions := TightMayHang(t);
    }
  }
}
