/**
 * Registrations racing with the one start of the scheduler. Each registration is a thread that puts
 * its job into the table, then asks under the start lock whether the scheduler runs, then launches
 * what it must; the starting thread holds the start lock from raising the flag until it has launched
 * everything it found in the table. Each such step is one transition.
 */
module ScheduleStart {
  import opened Options

  /** A registration that passed the checks: the Id, and whether the job has an interval or a cron expression. */
  datatype Job = Job(id: string, periodic: bool)

  datatype Phase =
    | Arriving
    | Inserted
    | Checked(running: bool, needCron: bool)
    | Returned(running: bool, needCron: bool)

  datatype Starting = Waiting | Began | Launching | Finished

  datatype Launcher = Starter | Registration(i: nat)

  datatype State = State(
    table: map<string, nat>,      // job Id to the registration that owns the entry
    started: bool,
    cronLoopOn: bool,
    start: Starting,
    snapshot: set<nat>,           // what the starting thread saw in the table
    todo: set<nat>,               // what of it has not been looked at yet
    phases: seq<Phase>,
    loops: seq<nat>,              // interval loops launched for each registration
    cronLoops: nat,
    // the rest only records what happened
    gone: set<nat>,               // registrations whose entry was replaced or cancelled
    launcher: Option<Launcher>)   // who raised cronLoopOn

  datatype Step =
    | Insert(i: nat)
    | Check(i: nat)
    | Launch(i: nat)
    | Remove(id: string)          // a cancellation
    | Begin
    | Snap
    | Visit(i: nat)
    | Finish

  predicate InitialState(jobs: seq<Job>, s: State) {
    && s.table == map[] && !s.started && !s.cronLoopOn && s.start.Waiting? && s.snapshot == {} && s.todo == {}
    && |s.phases| == |jobs| == |s.loops|
    && (forall i :: 0 <= i < |jobs| ==> s.phases[i].Arriving? && s.loops[i] == 0)
    && s.cronLoops == 0 && s.gone == {} && s.launcher.None?
  }

  predicate Sized(jobs: seq<Job>, s: State) {
    |s.phases| == |jobs| == |s.loops|
  }

  /** Nobody holds the start lock across steps but the starting thread. */
  predicate LockFree(s: State) {
    s.start.Waiting? || s.start.Finished?
  }

  predicate Enabled(jobs: seq<Job>, s: State, step: Step)
    requires Sized(jobs, s)
  {
    match step
    case Insert(i) => i < |jobs| && s.phases[i].Arriving?
    case Check(i) => i < |jobs| && s.phases[i].Inserted? && LockFree(s)
    case Launch(i) => i < |jobs| && s.phases[i].Checked?
    case Remove(id) => true
    case Begin => s.start.Waiting?
    case Snap => s.start.Began?
    case Visit(i) => i < |jobs| && s.start.Launching? && i in s.todo
    case Finish => s.start.Launching? && s.todo == {}
  }

  function Displaced(s: State, id: string): set<nat> {
    if id in s.table then {s.table[id]} else {}
  }

  predicate CronInSnapshot(jobs: seq<Job>, s: State) {
    exists i :: 0 <= i < |jobs| && i in s.snapshot && !jobs[i].periodic
  }

  function After(jobs: seq<Job>, s: State, step: Step): (t: State)
    requires Sized(jobs, s) && Enabled(jobs, s, step)
  {
    match step
    case Insert(i) =>
      s.(table := s.table[jobs[i].id := i], gone := s.gone + Displaced(s, jobs[i].id),
         phases := s.phases[i := Inserted])
    case Check(i) =>
      var needCron := s.started && !jobs[i].periodic && !s.cronLoopOn;
      s.(cronLoopOn := s.cronLoopOn || needCron, phases := s.phases[i := Checked(s.started, needCron)],
         launcher := if needCron then Some(Registration(i)) else s.launcher)
    case Launch(i) =>
      var p := s.phases[i];
      s.(loops := if p.running && jobs[i].periodic then s.loops[i := s.loops[i] + 1] else s.loops,
         cronLoops := if p.running && !jobs[i].periodic && p.needCron then s.cronLoops + 1 else s.cronLoops,
         phases := s.phases[i := Returned(p.running, p.needCron)])
    case Remove(id) => s.(table := s.table - {id}, gone := s.gone + Displaced(s, id))
    case Begin => s.(started := true, start := Began)
    case Snap => s.(start := Launching, snapshot := s.table.Values, todo := s.table.Values)
    case Visit(i) =>
      s.(todo := s.todo - {i}, loops := if jobs[i].periodic then s.loops[i := s.loops[i] + 1] else s.loops)
    case Finish =>
      if CronInSnapshot(jobs, s)
      then s.(start := Finished, cronLoopOn := true, cronLoops := s.cronLoops + 1, launcher := Some(Starter))
      else s.(start := Finished)
  }

  /** The runs: states reached from an initial one by any steps in any order. */
  predicate Run(jobs: seq<Job>, states: seq<State>, steps: seq<Step>) {
    && |states| == |steps| + 1 && InitialState(jobs, states[0])
    && forall k :: 0 <= k < |steps| ==>
         Sized(jobs, states[k]) && Enabled(jobs, states[k], steps[k]) && states[k + 1] == After(jobs, states[k], steps[k])
  }

  // ---------------------------------------------------------------- the invariant

  predicate Listed(jobs: seq<Job>, s: State, i: nat)
    requires i < |jobs|
  {
    jobs[i].id in s.table && s.table[jobs[i].id] == i
  }

  /** The registration asked after the scheduler was started. */
  predicate SawRunning(s: State, i: nat)
    requires i < |s.phases|
  {
    (s.phases[i].Checked? || s.phases[i].Returned?) && s.phases[i].running
  }

  predicate SawIdle(s: State, i: nat)
    requires i < |s.phases|
  {
    (s.phases[i].Checked? || s.phases[i].Returned?) && !s.phases[i].running
  }

  predicate TookSnapshot(s: State) {
    s.start.Launching? || s.start.Finished?
  }

  predicate TableInv(jobs: seq<Job>, s: State)
    requires Sized(jobs, s)
  {
    && (forall id :: id in s.table ==> s.table[id] < |jobs| && jobs[s.table[id]].id == id)
    && (forall i :: i in s.snapshot ==> i < |jobs|)
    && s.todo <= s.snapshot
    && (!TookSnapshot(s) ==> s.snapshot == {})
    && (s.start.Finished? ==> s.todo == {})
    && (s.started <==> !s.start.Waiting?)
  }

  predicate ListingInv(jobs: seq<Job>, s: State, i: nat)
    requires Sized(jobs, s) && i < |jobs|
  {
    && (s.phases[i].Arriving? ==> !Listed(jobs, s, i) && i !in s.snapshot && i !in s.gone)
    && (!s.phases[i].Arriving? ==> (Listed(jobs, s, i) <==> i !in s.gone))
  }

  predicate AnswerInv(s: State, i: nat)
    requires i < |s.phases|
  {
    && (TookSnapshot(s) && SawIdle(s, i) ==> i in s.snapshot || i in s.gone)
    && (SawRunning(s, i) ==> s.start.Finished?)
  }

  predicate EntryInv(jobs: seq<Job>, s: State, i: nat)
    requires Sized(jobs, s) && i < |jobs|
  {
    ListingInv(jobs, s, i) && AnswerInv(s, i)
  }

  function Count(b: bool): (n: nat) {
    if b then 1 else 0
  }

  predicate LoopInv(jobs: seq<Job>, s: State, i: nat)
    requires Sized(jobs, s) && i < |jobs|
  {
    s.loops[i] == if !jobs[i].periodic then 0 else
      Count(i in s.snapshot && i !in s.todo) + Count(s.phases[i].Returned? && s.phases[i].running)
  }

  predicate CronInv(jobs: seq<Job>, s: State)
    requires Sized(jobs, s)
  {
    && (s.cronLoopOn <==> s.launcher.Some?)
    && (s.cronLoopOn ==> s.start.Finished?)
    && (s.start.Finished? && CronInSnapshot(jobs, s) ==> s.cronLoopOn)
    && (s.launcher == Some(Starter) ==> CronInSnapshot(jobs, s))
    && (forall i :: 0 <= i < |jobs| && SawRunning(s, i) && !jobs[i].periodic ==> s.cronLoopOn)
    && (forall i :: 0 <= i < |jobs| && (s.phases[i].Checked? || s.phases[i].Returned?) ==>
          (s.phases[i].needCron <==> s.launcher == Some(Registration(i))))
    && (match s.launcher
        case None => s.cronLoops == 0
        case Some(Starter) => s.cronLoops == 1
        case Some(Registration(i)) =>
          i < |jobs| && SawRunning(s, i) && !jobs[i].periodic && s.cronLoops == Count(s.phases[i].Returned?))
  }

  predicate Inv(jobs: seq<Job>, s: State) {
    && Sized(jobs, s) && TableInv(jobs, s) && CronInv(jobs, s)
    && forall i :: 0 <= i < |jobs| ==> EntryInv(jobs, s, i) && LoopInv(jobs, s, i)
  }

  lemma StepKeepsTable(jobs: seq<Job>, s: State, step: Step)
    requires Inv(jobs, s) && Enabled(jobs, s, step)
    ensures Sized(jobs, After(jobs, s, step)) && TableInv(jobs, After(jobs, s, step))
  {
    hide CronInv, EntryInv, LoopInv;
  }

  lemma StepKeepsListing(jobs: seq<Job>, s: State, step: Step, i: nat)
    requires Inv(jobs, s) && Enabled(jobs, s, step) && i < |jobs|
    ensures Sized(jobs, After(jobs, s, step)) && ListingInv(jobs, After(jobs, s, step), i)
  {
    hide CronInv, LoopInv, AnswerInv;
    assert EntryInv(jobs, s, i);
    assert forall j :: j in s.table.Values ==> EntryInv(jobs, s, j) && Listed(jobs, s, j);
  }

  lemma StepKeepsAnswer(jobs: seq<Job>, s: State, step: Step, i: nat)
    requires Inv(jobs, s) && Enabled(jobs, s, step) && i < |jobs|
    ensures Sized(jobs, After(jobs, s, step)) && AnswerInv(After(jobs, s, step), i)
  {
    hide CronInv, LoopInv;
    assert EntryInv(jobs, s, i);
  }

  lemma StepKeepsEntry(jobs: seq<Job>, s: State, step: Step, i: nat)
    requires Inv(jobs, s) && Enabled(jobs, s, step) && i < |jobs|
    ensures Sized(jobs, After(jobs, s, step)) && EntryInv(jobs, After(jobs, s, step), i)
  {
    StepKeepsListing(jobs, s, step, i);
    StepKeepsAnswer(jobs, s, step, i);
    hide Inv, After, ListingInv, AnswerInv;
  }

  lemma StepKeepsLoops(jobs: seq<Job>, s: State, step: Step, i: nat)
    requires Inv(jobs, s) && Enabled(jobs, s, step) && i < |jobs|
    ensures Sized(jobs, After(jobs, s, step)) && LoopInv(jobs, After(jobs, s, step), i)
  {
    hide CronInv;
    assert EntryInv(jobs, s, i) && LoopInv(jobs, s, i);
  }

  lemma StepKeepsCron(jobs: seq<Job>, s: State, step: Step)
    requires Inv(jobs, s) && Enabled(jobs, s, step)
    ensures Sized(jobs, After(jobs, s, step)) && CronInv(jobs, After(jobs, s, step))
  {
    hide LoopInv;
  }

  lemma {:induction false} RunKeepsInv(jobs: seq<Job>, states: seq<State>, steps: seq<Step>, k: nat)
    requires Run(jobs, states, steps) && k < |states|
    ensures Inv(jobs, states[k])
  {
    if k > 0 {
      RunKeepsInv(jobs, states, steps, k - 1);
      var s, step := states[k - 1], steps[k - 1];
      StepKeepsTable(jobs, s, step);
      StepKeepsCron(jobs, s, step);
      forall i | 0 <= i < |jobs| ensures EntryInv(jobs, states[k], i) && LoopInv(jobs, states[k], i) {
        StepKeepsEntry(jobs, s, step, i);
        StepKeepsLoops(jobs, s, step, i);
      }
    }
  }

  // ---------------------------------------------------------------- what the code is for

  /** The start has returned and so has every registration. */
  predicate Quiet(s: State) {
    s.start.Finished? && forall i :: 0 <= i < |s.phases| ==> s.phases[i].Returned?
  }

  /** The step was taken among the first k. */
  predicate Taken(steps: seq<Step>, k: nat, step: Step) {
    k <= |steps| && exists a :: 0 <= a < k && steps[a] == step
  }

  /** Both steps were taken among the first k, in this order. */
  predicate TakenInOrder(steps: seq<Step>, k: nat, first: Step, second: Step) {
    k <= |steps| && exists b :: 0 <= b < k && steps[b] == second && Taken(steps, b, first)
  }

  lemma OneStepMore(steps: seq<Step>, k: nat, first: Step, second: Step)
    requires k < |steps|
    ensures Taken(steps, k + 1, first) <==> Taken(steps, k, first) || steps[k] == first
    ensures TakenInOrder(steps, k + 1, first, second) <==>
      TakenInOrder(steps, k, first, second) || (steps[k] == second && Taken(steps, k, first))
  {
    hide Taken;
    TakenStep(steps, k, first);
  }

  lemma TakenStep(steps: seq<Step>, k: nat, step: Step)
    requires k < |steps|
    ensures Taken(steps, k + 1, step) <==> Taken(steps, k, step) || steps[k] == step
  {
    if Taken(steps, k, step) {
      var a :| 0 <= a < k && steps[a] == step;
      assert 0 <= a < k + 1;
    }
  }

  /** The step takes the entry of this Id out of the table: a cancellation, or an insertion under the Id. */
  predicate Displaces(jobs: seq<Job>, step: Step, id: string) {
    step == Remove(id) || (step.Insert? && step.i < |jobs| && jobs[step.i].id == id)
  }

  /** After k steps the registration's entry stands in the table: it was inserted, and not displaced since. */
  predicate Stands(jobs: seq<Job>, steps: seq<Step>, k: nat, i: nat) {
    && i < |jobs| && k <= |steps|
    && exists a :: 0 <= a < k && steps[a] == Insert(i) && forall c :: a < c < k ==> !Displaces(jobs, steps[c], jobs[i].id)
  }

  /** The entry stood in the table when the start looked at it. */
  predicate SeenByStart(jobs: seq<Job>, steps: seq<Step>, k: nat, i: nat) {
    k <= |steps| && exists b :: 0 <= b < k && steps[b].Snap? && Stands(jobs, steps, b, i)
  }

  lemma StandsStep(jobs: seq<Job>, steps: seq<Step>, k: nat, i: nat)
    requires k < |steps| && i < |jobs|
    ensures Stands(jobs, steps, k + 1, i) <==>
      steps[k] == Insert(i) || (Stands(jobs, steps, k, i) && !Displaces(jobs, steps[k], jobs[i].id))
  {
    hide Displaces;
    if Stands(jobs, steps, k + 1, i) {
      var a :| 0 <= a < k + 1 && steps[a] == Insert(i) && forall c :: a < c < k + 1 ==> !Displaces(jobs, steps[c], jobs[i].id);
      assert a < k ==> 0 <= a < k && forall c :: a < c < k ==> !Displaces(jobs, steps[c], jobs[i].id);
    }
    if Stands(jobs, steps, k, i) && !Displaces(jobs, steps[k], jobs[i].id) {
      var a :| 0 <= a < k && steps[a] == Insert(i) && forall c :: a < c < k ==> !Displaces(jobs, steps[c], jobs[i].id);
      assert 0 <= a < k + 1 && forall c :: a < c < k + 1 ==> !Displaces(jobs, steps[c], jobs[i].id);
    }
    if steps[k] == Insert(i) {
      assert 0 <= k < k + 1 && steps[k] == Insert(i);
    }
  }

  lemma SeenStep(jobs: seq<Job>, steps: seq<Step>, k: nat, i: nat)
    requires k < |steps|
    ensures SeenByStart(jobs, steps, k + 1, i) <==>
      SeenByStart(jobs, steps, k, i) || (steps[k].Snap? && Stands(jobs, steps, k, i))
  {
    hide Stands;
    if SeenByStart(jobs, steps, k, i) {
      var b :| 0 <= b < k && steps[b].Snap? && Stands(jobs, steps, b, i);
      assert 0 <= b < k + 1;
    }
  }

  lemma ListedStep(jobs: seq<Job>, s: State, step: Step, i: nat)
    requires Inv(jobs, s) && Enabled(jobs, s, step) && i < |jobs|
    ensures Listed(jobs, After(jobs, s, step), i) <==>
      step == Insert(i) || (Listed(jobs, s, i) && !Displaces(jobs, step, jobs[i].id))
    ensures i in After(jobs, s, step).snapshot <==> if step.Snap? then Listed(jobs, s, i) else i in s.snapshot
  {
    assert EntryInv(jobs, s, i);
    hide CronInv, LoopInv;
  }

  /** The entry is listed exactly when it stands, and in the snapshot exactly when the start saw it. */
  lemma {:induction false} ListedIsHistory(jobs: seq<Job>, states: seq<State>, steps: seq<Step>, k: nat, i: nat)
    requires Run(jobs, states, steps) && k < |states| && i < |jobs|
    ensures Listed(jobs, states[k], i) <==> Stands(jobs, steps, k, i)
    ensures i in states[k].snapshot <==> SeenByStart(jobs, steps, k, i)
  {
    if k > 0 {
      var s, step := states[k - 1], steps[k - 1];
      ListedIsHistory(jobs, states, steps, k - 1, i);
      RunKeepsInv(jobs, states, steps, k - 1);
      ListedStep(jobs, s, step, i);
      StandsStep(jobs, steps, k - 1, i);
      SeenStep(jobs, steps, k - 1, i);
      hide Stands, SeenByStart, Inv, After, Enabled, Listed, Displaces;
    }
  }

  /** What one step changes of what a state knows of a registration. */
  lemma StepLeaves(jobs: seq<Job>, s: State, step: Step, i: nat)
    requires Inv(jobs, s) && Enabled(jobs, s, step) && i < |jobs|
    ensures var t := After(jobs, s, step);
      && Sized(jobs, t)
      && (t.started <==> s.started || step == Begin)
      && (!t.phases[i].Arriving? <==> !s.phases[i].Arriving? || step == Insert(i))
      && (i in t.snapshot <==> if step == Snap then !s.phases[i].Arriving? && i !in s.gone else i in s.snapshot)
      && s.gone <= t.gone
      && (SawRunning(t, i) <==> SawRunning(s, i) || (step == Check(i) && s.started))
  {
    assert EntryInv(jobs, s, i);
    hide CronInv, LoopInv;
  }

  /** What a state knows of a registration, read off the steps that led to it. */
  lemma {:induction false} StateIsHistory(jobs: seq<Job>, states: seq<State>, steps: seq<Step>, k: nat, i: nat)
    requires Run(jobs, states, steps) && k < |states| && i < |jobs|
    ensures Sized(jobs, states[k])
    ensures states[k].started <==> Taken(steps, k, Begin)
    ensures !states[k].phases[i].Arriving? <==> Taken(steps, k, Insert(i))
    ensures i in states[k].snapshot ==> TakenInOrder(steps, k, Insert(i), Snap)
    ensures TakenInOrder(steps, k, Insert(i), Snap) ==> i in states[k].snapshot || i in states[k].gone
    ensures i in states[k].snapshot <==> SeenByStart(jobs, steps, k, i)
    ensures SawRunning(states[k], i) <==> TakenInOrder(steps, k, Begin, Check(i))
  {
    ListedIsHistory(jobs, states, steps, k, i);
    hide SeenByStart;
    if k > 0 {
      var s, step := states[k - 1], steps[k - 1];
      StateIsHistory(jobs, states, steps, k - 1, i);
      RunKeepsInv(jobs, states, steps, k - 1);
      StepLeaves(jobs, s, step, i);
      OneStepMore(steps, k - 1, Insert(i), Snap);
      OneStepMore(steps, k - 1, Begin, Check(i));
      hide Taken, TakenInOrder, Inv, After, Enabled, SawRunning;
    }
  }

  /** The registration entered the table before the start looked at it, and asked after the start had begun. */
  predicate Straddles(steps: seq<Step>, k: nat, i: nat) {
    TakenInOrder(steps, k, Insert(i), Snap) && TakenInOrder(steps, k, Begin, Check(i))
  }

  /** Every interval job still in the table has its loop, and it has a second one exactly when its registration straddled the start. */
  lemma EveryIntervalJobHasItsLoop(jobs: seq<Job>, states: seq<State>, steps: seq<Step>, k: nat, i: nat)
    requires Run(jobs, states, steps) && k < |states| && Quiet(states[k])
    requires i < |jobs| && jobs[i].periodic && Listed(jobs, states[k], i)
    ensures Sized(jobs, states[k]) && states[k].loops[i] == if Straddles(steps, k, i) then 2 else 1
  {
    RunKeepsInv(jobs, states, steps, k);
    StateIsHistory(jobs, states, steps, k, i);
    assert EntryInv(jobs, states[k], i) && LoopInv(jobs, states[k], i);
    hide TakenInOrder;
  }

  /** At most one cron loop at any moment, and at quiescence the flag says whether there is one. */
  lemma AtMostOneCronLoop(jobs: seq<Job>, states: seq<State>, steps: seq<Step>, k: nat)
    requires Run(jobs, states, steps) && k < |states|
    ensures states[k].cronLoops <= 1
    ensures states[k].cronLoops == 1 ==> states[k].cronLoopOn
    ensures Quiet(states[k]) ==> (states[k].cronLoopOn <==> states[k].cronLoops == 1)
  {
    RunKeepsInv(jobs, states, steps, k);
  }

  /** The cron loop exists exactly when some cron job stood in the table when the start looked, or asked after the start had begun. */
  lemma CronLoopExactlyWhenNeeded(jobs: seq<Job>, states: seq<State>, steps: seq<Step>, k: nat)
    requires Run(jobs, states, steps) && k < |states| && Quiet(states[k])
    ensures Sized(jobs, states[k])
    ensures states[k].cronLoops == 1 <==>
      exists i :: 0 <= i < |jobs| && !jobs[i].periodic && (i in states[k].snapshot || SawRunning(states[k], i))
    ensures states[k].cronLoops == 1 <==>
      exists i :: 0 <= i < |jobs| && !jobs[i].periodic &&
        (SeenByStart(jobs, steps, k, i) || TakenInOrder(steps, k, Begin, Check(i)))
  {
    RunKeepsInv(jobs, states, steps, k);
    var s := states[k];
    if i :| 0 <= i < |jobs| && !jobs[i].periodic && i in s.snapshot {
      assert CronInSnapshot(jobs, s);
    }
    forall i | 0 <= i < |jobs|
      ensures (SeenByStart(jobs, steps, k, i) <==> i in s.snapshot) && (TakenInOrder(steps, k, Begin, Check(i)) <==> SawRunning(s, i))
    {
      StateIsHistory(jobs, states, steps, k, i);
    }
    hide SeenByStart, TakenInOrder;
  }

  /** So every cron job still in the table is served. When no job was replaced or cancelled, any cron job at all decides it. */
  lemma EveryCronJobIsServed(jobs: seq<Job>, states: seq<State>, steps: seq<Step>, k: nat)
    requires Run(jobs, states, steps) && k < |states| && Quiet(states[k])
    ensures (exists i :: 0 <= i < |jobs| && !jobs[i].periodic && Listed(jobs, states[k], i)) ==> states[k].cronLoops == 1
    ensures states[k].gone == {} ==>
      (states[k].cronLoops == 1 <==> exists i :: 0 <= i < |jobs| && !jobs[i].periodic)
  {
    RunKeepsInv(jobs, states, steps, k);
    CronLoopExactlyWhenNeeded(jobs, states, steps, k);
    var s := states[k];
    forall i | 0 <= i < |jobs| && !jobs[i].periodic && i !in s.gone ensures i in s.snapshot || SawRunning(s, i) {
      assert EntryInv(jobs, s, i);
    }
    assert forall i :: 0 <= i < |jobs| && Listed(jobs, s, i) ==> EntryInv(jobs, s, i) && i !in s.gone;
  }

  /** Entries leave the table only by a cancellation or under an Id that is used twice. */
  lemma {:induction false} OnlySharedIdsAreReplaced(jobs: seq<Job>, states: seq<State>, steps: seq<Step>, k: nat)
    requires Run(jobs, states, steps) && k < |states|
    requires forall i, j :: 0 <= i < j < |jobs| ==> jobs[i].id != jobs[j].id
    requires forall m :: 0 <= m < |steps| ==> !steps[m].Remove?
    ensures states[k].gone == {}
  {
    if k > 0 {
      OnlySharedIdsAreReplaced(jobs, states, steps, k - 1);
      RunKeepsInv(jobs, states, steps, k - 1);
      var s, step := states[k - 1], steps[k - 1];
      if step.Insert? {
        assert EntryInv(jobs, s, step.i);
      }
    }
  }

  /** A cron job that is cancelled before the start leaves no cron loop, although it was registered. */
  lemma CancelledBeforeTheStart(id: string) returns (states: seq<State>, steps: seq<Step>)
    ensures Run([Job(id, false)], states, steps) && |states| == 8
    ensures Quiet(states[7]) && states[7].cronLoops == 0
  {
    var jobs := [Job(id, false)];
    var s0 := State(map[], false, false, Waiting, {}, {}, [Arriving], [0], 0, {}, None);
    var s1 := After(jobs, s0, Insert(0));
    var s2 := After(jobs, s1, Check(0));
    var s3 := After(jobs, s2, Launch(0));
    var s4 := After(jobs, s3, Remove(id));
    var s5 := After(jobs, s4, Begin);
    var s6 := After(jobs, s5, Snap);
    var s7 := After(jobs, s6, Finish);
    states := [s0, s1, s2, s3, s4, s5, s6, s7];
    steps := [Insert(0), Check(0), Launch(0), Remove(id), Begin, Snap, Finish];
  }

  /** A straddling registration does happen, and leaves two loops for one job. */
  lemma StraddlingDoublesTheLoop(id: string) returns (states: seq<State>, steps: seq<Step>)
    ensures Run([Job(id, true)], states, steps) && |states| == 8
    ensures Quiet(states[7]) && Listed([Job(id, true)], states[7], 0) && states[7].loops == [2]
  {
    var jobs := [Job(id, true)];
    var s0 := State(map[], false, false, Waiting, {}, {}, [Arriving], [0], 0, {}, None);
    var s1 := After(jobs, s0, Insert(0));
    var s2 := After(jobs, s1, Begin);
    var s3 := After(jobs, s2, Snap);
    var s4 := After(jobs, s3, Visit(0));
    var s5 := After(jobs, s4, Finish);
    var s6 := After(jobs, s5, Check(0));
    var s7 := After(jobs, s6, Launch(0));
    states := [s0, s1, s2, s3, s4, s5, s6, s7];
    steps := [Insert(0), Begin, Snap, Visit(0), Finish, Check(0), Launch(0)];
  }
}
