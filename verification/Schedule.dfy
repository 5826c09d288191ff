/**
 * The scheduler's job table, edited in place under one lock. Each method is one critical section;
 * what it does to every job ever registered is one step of that job's own state machine.
 */
module Schedule {
  import opened Options
  import opened Text
  import opened Cron

  /** What the scheduler keeps about a job: its entry may be referenced after it has left the table. */
  datatype JobState = JobState(listed: bool, paused: bool, cancelled: bool, lastFire: Option<int>)

  datatype Event =
    | Untouched
    | Removed                               // cancelled, or replaced by a job of the same Id
    | Paused
    | Resumed
    | Ticked(minute: int, matching: bool)   // the cron loop looks at the job
    | Tried                                 // the job's own interval loop asks to fire

  predicate Fires(j: JobState, e: Event) {
    match e
    case Ticked(minute, matching) => j.listed && !j.paused && matching && j.lastFire != Some(minute)
    case Tried => !j.paused && !j.cancelled
    case _ => false
  }

  function After(j: JobState, e: Event): JobState {
    match e
    case Removed => if j.listed then j.(listed := false, cancelled := true) else j
    case Paused => if j.listed then j.(paused := true) else j
    case Resumed => if j.listed then j.(paused := false) else j
    case Ticked(minute, _) => if Fires(j, e) then j.(lastFire := Some(minute)) else j
    case _ => j
  }

  // ---------------------------------------------------------------- tables

  /** Puts `x` in the place of the entry with the same Id, or at the end. */
  function Placed<T>(table: seq<(string, T)>, id: string, x: T): seq<(string, T)> {
    if table == [] then [(id, x)]
    else if table[0].0 == id then [(id, x)] + table[1..]
    else [table[0]] + Placed(table[1..], id, x)
  }

  function Without<T>(table: seq<(string, T)>, id: string): seq<(string, T)> {
    if table == [] then []
    else if table[0].0 == id then table[1..]
    else [table[0]] + Without(table[1..], id)
  }

  /** The map a table stands for: its first entry of each Id. */
  function MapOf<T>(table: seq<(string, T)>): map<string, T> {
    if table == [] then map[] else MapOf(table[1..])[table[0].0 := table[0].1]
  }

  predicate DistinctIds<T>(table: seq<(string, T)>) {
    table != [] ==> table[0].0 !in MapOf(table[1..]) && DistinctIds(table[1..])
  }

  /** Registering under an Id is a map update, and keeps Ids distinct. */
  lemma {:induction false} PlacedIsUpdate<T>(table: seq<(string, T)>, id: string, x: T)
    requires DistinctIds(table)
    ensures DistinctIds(Placed(table, id, x)) && MapOf(Placed(table, id, x)) == MapOf(table)[id := x]
  {
    if table == [] {
      assert Placed(table, id, x)[1..] == [];
    } else if table[0].0 == id {
      assert Placed(table, id, x)[1..] == table[1..];
    } else {
      PlacedIsUpdate(table[1..], id, x);
      assert Placed(table, id, x)[1..] == Placed(table[1..], id, x);
    }
  }

  /** Cancelling an Id removes it from the map, and keeps Ids distinct. */
  lemma {:induction false} WithoutIsRemoval<T>(table: seq<(string, T)>, id: string)
    requires DistinctIds(table)
    ensures DistinctIds(Without(table, id)) && MapOf(Without(table, id)) == MapOf(table) - {id}
  {
    if table != [] && table[0].0 != id {
      WithoutIsRemoval(table[1..], id);
      assert Without(table, id)[1..] == Without(table[1..], id);
    }
  }

  /** The entry that a search from the front finds. */
  predicate FirstAt<T>(table: seq<(string, T)>, id: string, i: nat) {
    i < |table| && table[i].0 == id && forall j :: 0 <= j < i ==> table[j].0 != id
  }

  lemma {:induction false} FirstAtMeans<T>(table: seq<(string, T)>, id: string, x: T, i: nat)
    requires FirstAt(table, id, i)
    ensures Placed(table, id, x) == table[i := (id, x)] && Without(table, id) == table[..i] + table[i + 1..]
    ensures id in MapOf(table) && MapOf(table)[id] == table[i].1
  {
    if i > 0 {
      assert table[0].0 != id;
      var rest := table[1..];
      FirstAtMeans(rest, id, x, i - 1);
      assert [table[0]] + rest[i - 1 := (id, x)] == table[i := (id, x)];
      assert [table[0]] + (rest[..i - 1] + rest[i..]) == table[..i] + table[i + 1..];
    }
  }

  lemma {:induction false} AbsentMeans<T>(table: seq<(string, T)>, id: string, x: T)
    requires forall j :: 0 <= j < |table| ==> table[j].0 != id
    ensures Placed(table, id, x) == table + [(id, x)] && Without(table, id) == table && id !in MapOf(table)
  {
    if table != [] {
      AbsentMeans(table[1..], id, x);
    }
  }

  /** With distinct Ids the entries are the pairs of the map. */
  lemma {:induction false} EntriesOfMap<T>(table: seq<(string, T)>)
    requires DistinctIds(table)
    ensures forall i :: 0 <= i < |table| ==> table[i].0 in MapOf(table) && MapOf(table)[table[i].0] == table[i].1
    ensures forall k :: k in MapOf(table) ==> (k, MapOf(table)[k]) in table
  {
    if table != [] {
      EntriesOfMap(table[1..]);
      assert forall i :: 0 < i < |table| ==> table[i] == table[1..][i - 1];
    }
  }

  lemma {:induction false} CountIsSize<T>(table: seq<(string, T)>)
    requires DistinctIds(table)
    ensures |MapOf(table)| == |table|
  {
    if table != [] {
      CountIsSize(table[1..]);
      assert MapOf(table).Keys == MapOf(table[1..]).Keys + {table[0].0};
      assert |MapOf(table).Keys| == |MapOf(table[1..]).Keys| + 1;
    }
  }

  // ---------------------------------------------------------------- the scheduler

  /** A job as the plugin hands it over: its handler and the target of its messages play no part here. */
  datatype Job = Job(id: string, interval: int, cron: string, hasHandle: bool)

  class RegisteredJob {
    const id: string
    const interval: int
    const cron: Option<CronExpr>
    var lastFire: Option<int>
    var paused: bool
    var cancelled: bool

    constructor (id: string, interval: int, cron: Option<CronExpr>)
      ensures this.id == id && this.interval == interval && this.cron == cron
      ensures lastFire.None? && !paused && !cancelled
    {
      this.id, this.interval, this.cron, lastFire, paused, cancelled := id, interval, cron, None, false, false;
    }
  }

  function TableOf(jobs: seq<RegisteredJob>): seq<(string, RegisteredJob)> {
    seq(|jobs|, i requires 0 <= i < |jobs| => (jobs[i].id, jobs[i]))
  }

  predicate FirstWithId(jobs: seq<RegisteredJob>, id: string, k: nat) {
    k < |jobs| && jobs[k].id == id && forall i :: 0 <= i < k ==> jobs[i].id != id
  }

  /** The job registered under an Id is the only listed one with that Id. */
  lemma OnlyJobWithId(jobs: seq<RegisteredJob>, j: RegisteredJob)
    requires DistinctIds(TableOf(jobs)) && j in jobs
    ensures j.id in MapOf(TableOf(jobs)) && MapOf(TableOf(jobs))[j.id] == j
  {
    var i :| 0 <= i < |jobs| && jobs[i] == j;
    EntriesOfMap(TableOf(jobs));
    assert TableOf(jobs)[i] == (j.id, j);
  }

  lemma FoundJob(jobs: seq<RegisteredJob>, id: string, k: nat)
    requires DistinctIds(TableOf(jobs)) && FirstWithId(jobs, id, k)
    ensures id in MapOf(TableOf(jobs)) && MapOf(TableOf(jobs))[id] == jobs[k]
    ensures forall j :: j in jobs ==> (j.id == id <==> j == jobs[k])
  {
    forall j | j in jobs ensures j.id == id <==> j == jobs[k] {
      OnlyJobWithId(jobs, j);
      OnlyJobWithId(jobs, jobs[k]);
    }
    OnlyJobWithId(jobs, jobs[k]);
  }

  lemma NoSuchJob(jobs: seq<RegisteredJob>, id: string)
    requires DistinctIds(TableOf(jobs)) && forall i :: 0 <= i < |jobs| ==> jobs[i].id != id
    ensures id !in MapOf(TableOf(jobs)) && forall j :: j in jobs ==> j.id != id
  {
    if jobs != [] {
      AbsentMeans(TableOf(jobs), id, jobs[0]);
    }
  }

  lemma JobRemoved(jobs: seq<RegisteredJob>, id: string, k: nat)
    requires DistinctIds(TableOf(jobs)) && FirstWithId(jobs, id, k)
    ensures var after := jobs[..k] + jobs[k + 1..];
      && DistinctIds(TableOf(after)) && MapOf(TableOf(after)) == MapOf(TableOf(jobs)) - {id}
      && forall j :: j in after <==> j in jobs && j != jobs[k]
  {
    hide DistinctIds, MapOf, Without, Placed;
    var table, after := TableOf(jobs), jobs[..k] + jobs[k + 1..];
    FirstAtMeans(table, id, jobs[k], k);
    WithoutIsRemoval(table, id);
    assert TableOf(after) == table[..k] + table[k + 1..];
    FoundJob(jobs, id, k);
    assert jobs == jobs[..k] + [jobs[k]] + jobs[k + 1..];
    forall j | j in after ensures j != jobs[k] {
      OnlyJobWithId(after, j);
    }
  }

  lemma JobReplaced(jobs: seq<RegisteredJob>, k: nat, job: RegisteredJob)
    requires DistinctIds(TableOf(jobs)) && FirstWithId(jobs, job.id, k)
    ensures var after := jobs[k := job];
      && DistinctIds(TableOf(after)) && MapOf(TableOf(after)) == MapOf(TableOf(jobs))[job.id := job]
      && forall j :: j in after <==> j == job || (j in jobs && j != jobs[k])
  {
    hide DistinctIds, MapOf, Without, Placed;
    var table, after := TableOf(jobs), jobs[k := job];
    FirstAtMeans(table, job.id, job, k);
    PlacedIsUpdate(table, job.id, job);
    assert TableOf(after) == table[k := (job.id, job)];
    FoundJob(jobs, job.id, k);
    assert jobs == jobs[..k] + [jobs[k]] + jobs[k + 1..] && after == jobs[..k] + [job] + jobs[k + 1..];
    forall j | j in after && j != job ensures j != jobs[k] {
      OnlyJobWithId(after, j);
    }
  }

  lemma JobAppended(jobs: seq<RegisteredJob>, job: RegisteredJob)
    requires DistinctIds(TableOf(jobs)) && forall i :: 0 <= i < |jobs| ==> jobs[i].id != job.id
    ensures var after := jobs + [job];
      DistinctIds(TableOf(after)) && MapOf(TableOf(after)) == MapOf(TableOf(jobs))[job.id := job]
  {
    hide DistinctIds, MapOf, Placed;
    var table := TableOf(jobs);
    AbsentMeans(table, job.id, job);
    PlacedIsUpdate(table, job.id, job);
    assert TableOf(jobs + [job]) == table + [(job.id, job)];
  }

  class Scheduler {
    var jobs: seq<RegisteredJob>
    ghost var created: set<RegisteredJob>  // every job ever registered

    constructor ()
      ensures Valid() && jobs == [] && created == {}
    {
      jobs, created := [], {};
    }

    ghost function Table(): map<string, RegisteredJob>
      reads this
    {
      MapOf(TableOf(jobs))
    }

    ghost predicate Valid()
      reads this, created
    {
      && DistinctIds(TableOf(jobs))
      && (forall j :: j in jobs ==> j in created)
      && (forall j :: j in created ==> (j.cancelled <==> j !in jobs))
    }

    ghost function StateOf(j: RegisteredJob): JobState
      reads this, j
    {
      JobState(j in jobs, j.paused, j.cancelled, j.lastFire)
    }

    method Exists(id: string) returns (found: bool)
      requires Valid()
      ensures found <==> id in Table()
    {
      for k := 0 to |jobs|
        invariant forall i :: 0 <= i < k ==> jobs[i].id != id
      {
        if jobs[k].id == id {
          FoundJob(jobs, id, k);
          return true;
        }
      }
      NoSuchJob(jobs, id);
      return false;
    }

    method Cancel(id: string) returns (found: bool)
      requires Valid()
      modifies this`jobs, created
      ensures Valid() && created == old(created)
      ensures found <==> id in old(Table())
      ensures Table() == old(Table()) - {id}
      ensures forall j :: j in created ==> StateOf(j) == After(old(StateOf(j)), if j.id == id then Removed else Untouched)
    {
      hide DistinctIds, MapOf;
      for k := 0 to |jobs|
        invariant forall i :: 0 <= i < k ==> jobs[i].id != id
        invariant unchanged(this) && unchanged(created)
      {
        if jobs[k].id == id {
          FoundJob(jobs, id, k);
          JobRemoved(jobs, id, k);
          jobs[k].cancelled := true;
          jobs := jobs[..k] + jobs[k + 1..];
          return true;
        }
      }
      NoSuchJob(jobs, id);
      return false;
    }
  
    method SetPaused(id: string, value: bool) returns (found: bool)
      requires Valid()
      modifies created`paused
      ensures Valid() && Table() == old(Table())
      ensures found <==> id in Table()
      ensures forall j :: j in created ==>
        StateOf(j) == After(old(StateOf(j)), if j.id != id then Untouched else if value then Paused else Resumed)
    {
      hide DistinctIds, MapOf;
      for k := 0 to |jobs|
        invariant forall i :: 0 <= i < k ==> jobs[i].id != id
        invariant unchanged(created)
      {
        if jobs[k].id == id {
          FoundJob(jobs, id, k);
          jobs[k].paused := value;
          return true;
        }
      }
      NoSuchJob(jobs, id);
      return false;
    }

    method Pause(id: string) returns (found: bool)
      requires Valid()
      modifies created`paused
      ensures Valid() && Table() == old(Table())
      ensures found <==> id in Table()
      ensures forall j :: j in created ==> StateOf(j) == After(old(StateOf(j)), if j.id == id then Paused else Untouched)
    {
      found := SetPaused(id, true);
    }

    method Resume(id: string) returns (found: bool)
      requires Valid()
      modifies created`paused
      ensures Valid() && Table() == old(Table())
      ensures found <==> id in Table()
      ensures forall j :: j in created ==> StateOf(j) == After(old(StateOf(j)), if j.id == id then Resumed else Untouched)
    {
      found := SetPaused(id, false);
    }

    method GetJobCount() returns (n: nat)
      requires Valid()
      ensures n == |Table()|
    {
      CountIsSize(TableOf(jobs));
      return |jobs|;
    }

    method IsPaused(id: string) returns (paused: bool, listed: bool)
      requires Valid()
      ensures listed <==> id in Table()
      ensures paused <==> id in Table() && Table()[id].paused
    {
      for k := 0 to |jobs|
        invariant forall i :: 0 <= i < k ==> jobs[i].id != id
      {
        if jobs[k].id == id {
          FoundJob(jobs, id, k);
          return jobs[k].paused, true;
        }
      }
      NoSuchJob(jobs, id);
      return false, false;
    }

    /** The checks before the table is touched; the parsed expression is that of a job without an interval. */
    method Accept(job: Job) returns (accepted: bool, cron: Option<CronExpr>)
      ensures accepted <==> Acceptable(job)
      ensures accepted ==> cron == if job.interval > 0 then None else Some(ExprOf(Fields(job.cron)))
    {
      hide ExprUnderstood, ExprOf, Fields;
      if job.id == "" || !job.hasHandle || (job.interval <= 0 && job.cron == "") {
        return false, None;
      }
      if job.interval > 0 {
        return true, None;
      }
      var expr := ParseCron(job.cron);
      return expr.Some?, expr;
    }

    /** Registers a job, replacing and cancelling the one that had its Id. */
    method Register(job: Job) returns (r: Option<RegisteredJob>)
      requires Valid()
      modifies this, created
      ensures Valid()
      ensures r.Some? <==> Acceptable(job)
      ensures r.None? ==> unchanged(this) && unchanged(old(created))
      ensures r.Some? ==>
        && fresh(r.value) && created == old(created) + {r.value}
        && r.value.id == job.id && r.value.interval == job.interval
        && r.value.cron == (if job.interval > 0 then None else Some(ExprOf(Fields(job.cron))))
        && StateOf(r.value) == JobState(true, false, false, None)
        && Table() == old(Table())[job.id := r.value]
        && forall j :: j in old(created) ==>
             StateOf(j) == After(old(StateOf(j)), if j.id == job.id then Removed else Untouched)
    {
      hide DistinctIds, MapOf, ExprOf, ExprUnderstood, Fields;
      var accepted, cron := Accept(job);
      if !accepted {
        return None;
      }
      var rj := new RegisteredJob(job.id, job.interval, cron);
      created := created + {rj};
      for k := 0 to |jobs|
        invariant jobs == old(jobs) && created == old(created) + {rj}
        invariant forall i :: 0 <= i < k ==> jobs[i].id != job.id
        invariant unchanged(old(created)) && !rj.paused && !rj.cancelled && rj.lastFire.None?
      {
        if jobs[k].id == job.id {
          FoundJob(jobs, job.id, k);
          JobReplaced(jobs, k, rj);
          jobs[k].cancelled := true;
          jobs := jobs[k := rj];
          return Some(rj);
        }
      }
      NoSuchJob(jobs, job.id);
      JobAppended(jobs, rj);
      jobs := jobs + [rj];
      return Some(rj);
    }

    /** The decision an interval loop makes at each of its ticks, for the entry it was started with. */
    method TryFire(rj: RegisteredJob) returns (fires: bool)
      requires Valid() && rj in created
      ensures fires == Fires(StateOf(rj), Tried)
    {
      if rj.paused {
        return false;
      }
      return !rj.cancelled;
    }

    /** One tick of the cron loop: the entries to fire, each marked with the minute. */
    method CronTick(t: Stamp, minute: int) returns (toFire: seq<RegisteredJob>)
      requires Valid()
      modifies created`lastFire
      ensures Valid()
      ensures forall j :: j in created ==> StateOf(j) == After(old(StateOf(j)), TickEvent(j, t, minute))
      ensures forall j :: j in created ==> (j in toFire <==> Fires(old(StateOf(j)), TickEvent(j, t, minute)))
      ensures forall i, k :: 0 <= i < k < |toFire| ==> toFire[i] != toFire[k]
    {
      toFire := [];
      JobsDiffer(jobs);
      hide DistinctIds, MapOf, Matches;
      for k := 0 to |jobs|
        invariant forall j :: j in created ==> j.lastFire == if j in toFire then Some(minute) else old(j.lastFire)
        invariant forall i :: 0 <= i < k ==> (jobs[i] in toFire <==> Fires(old(StateOf(jobs[i])), TickEvent(jobs[i], t, minute)))
        invariant forall j :: j in toFire ==> j in jobs[..k]
        invariant forall i, l :: 0 <= i < l < |toFire| ==> toFire[i] != toFire[l]
      {
        var rj := jobs[k];
        assert rj !in jobs[..k] && jobs[..k + 1] == jobs[..k] + [rj];
        if rj.cron.Some? && !rj.paused && Matches(rj.cron.value, t) && rj.lastFire != Some(minute) {
          rj.lastFire := Some(minute);
          toFire := toFire + [rj];
        }
      }
    }
  }

  /** A registration that is not ignored. */
  predicate Acceptable(job: Job) {
    && job.id != "" && job.hasHandle && (job.interval > 0 || job.cron != "")
    && (job.interval <= 0 ==> ExprUnderstood(Fields(job.cron)))
  }

  /** Ignored are jobs without Id or handler, without interval and expression, and those whose expression, if it is needed, is malformed. */
  lemma IgnoredExactlyWhen(job: Job)
    ensures !Acceptable(job) <==>
      || job.id == ""
      || !job.hasHandle
      || (job.interval <= 0 && (job.cron == "" || !ExprUnderstood(Fields(job.cron))))
  {
    hide ExprUnderstood, Fields;
  }

  function TickEvent(j: RegisteredJob, t: Stamp, minute: int): Event {
    if j.cron.None? then Untouched else Ticked(minute, Matches(j.cron.value, t))
  }

  lemma JobsDiffer(jobs: seq<RegisteredJob>)
    requires DistinctIds(TableOf(jobs))
    ensures forall i, k :: 0 <= i < k < |jobs| ==> jobs[i] != jobs[k]
  {
    forall i, k | 0 <= i < k < |jobs| ensures jobs[i] != jobs[k] {
      IdsDiffer(TableOf(jobs), i, k);
    }
  }

  lemma {:induction false} IdsDiffer<T>(table: seq<(string, T)>, i: nat, k: nat)
    requires DistinctIds(table) && i < k < |table|
    ensures table[i].0 != table[k].0
  {
    if i == 0 {
      EntriesOfMap(table[1..]);
      assert table[1..][k - 1] == table[k];
    } else {
      IdsDiffer(table[1..], i - 1, k - 1);
    }
  }
}
