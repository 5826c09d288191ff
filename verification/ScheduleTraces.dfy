/**
 * What a registered job does over a whole run. Every method of the scheduler moves every job by one
 * event, so a run is the list of events that a job has met since it was registered.
 */
module ScheduleTraces {
  import opened Options
  import opened Schedule

  const AT_REGISTRATION := JobState(true, false, false, None)

  function StateAt(es: seq<Event>, m: nat): JobState
    requires m <= |es|
  {
    if m == 0 then AT_REGISTRATION else After(StateAt(es, m - 1), es[m - 1])
  }

  /** The m-th event makes the job's handler run. */
  predicate FiresAt(es: seq<Event>, m: int) {
    0 <= m < |es| && Fires(StateAt(es, m), es[m])
  }

  // ---------------------------------------------------------------- said without states

  /** Still registered, and every pause so far has been lifted. */
  predicate Allowed(es: seq<Event>, m: nat) {
    && m <= |es|
    && (forall k :: 0 <= k < m ==> !es[k].Removed?)
    && (forall k :: 0 <= k < m && es[k].Paused? ==> exists r :: k < r < m && es[r].Resumed?)
  }

  /** A tick of the cron loop that saw the job registered, unpaused and matching. */
  predicate Due(es: seq<Event>, m: int) {
    0 <= m < |es| && es[m].Ticked? && es[m].matching && Allowed(es, m)
  }

  predicate LatestDue(es: seq<Event>, m: int, k: int) {
    k < m && Due(es, k) && forall i :: k < i < m ==> !Due(es, i)
  }

  lemma AllowedStep(es: seq<Event>, m: nat)
    requires m < |es|
    ensures Allowed(es, m + 1) <==>
      (match es[m]
       case Removed => false
       case Paused => false
       case Resumed => forall k :: 0 <= k < m ==> !es[k].Removed?
       case _ => Allowed(es, m))
  {
    if es[m].Resumed? {
      if forall k :: 0 <= k < m ==> !es[k].Removed? {
        forall k | 0 <= k < m + 1 && es[k].Paused? ensures exists r :: k < r < m + 1 && es[r].Resumed? {
          assert k < m < m + 1;
        }
      }
    } else if Allowed(es, m + 1) {
      forall k | 0 <= k < m && es[k].Paused? ensures exists r :: k < r < m && es[r].Resumed? {
        var r :| k < r < m + 1 && es[r].Resumed?;
        assert r != m;
      }
    } else if Allowed(es, m) && !es[m].Paused? {
      forall k | 0 <= k < m + 1 && es[k].Paused? ensures exists r :: k < r < m + 1 && es[r].Resumed? {
        var r :| k < r < m && es[r].Resumed?;
        assert k < r < m + 1;
      }
    }
  }

  /** The fields of the entry, read off the run. */
  lemma {:induction false} StateIsHistory(es: seq<Event>, m: nat)
    requires m <= |es|
    ensures StateAt(es, m).listed <==> !StateAt(es, m).cancelled
    ensures StateAt(es, m).listed <==> forall k :: 0 <= k < m ==> !es[k].Removed?
    ensures Allowed(es, m) <==> StateAt(es, m).listed && !StateAt(es, m).paused
  {
    if m > 0 {
      StateIsHistory(es, m - 1);
      AllowedStep(es, m - 1);
    }
  }

  /** The minute kept with the entry is that of the latest tick at which the job was due. */
  lemma {:induction false} LastFireIsLatestDue(es: seq<Event>, m: nat)
    requires m <= |es|
    ensures match StateAt(es, m).lastFire
      case None => forall k :: 0 <= k < m ==> !Due(es, k)
      case Some(minute) => exists k :: LatestDue(es, m, k) && es[k].minute == minute
  {
    if m > 0 {
      LastFireIsLatestDue(es, m - 1);
      StateIsHistory(es, m - 1);
      hide Allowed;
      if Due(es, m - 1) {
        assert LatestDue(es, m, m - 1);
      } else if StateAt(es, m - 1).lastFire.Some? {
        var k :| LatestDue(es, m - 1, k) && es[k].minute == StateAt(es, m - 1).lastFire.value;
        assert LatestDue(es, m, k);
      }
    }
  }

  // ---------------------------------------------------------------- cancelling and pausing

  /** An interval job fires exactly at those of its ticks that find it registered and not paused. */
  lemma IntervalFiresExactlyWhenAllowed(es: seq<Event>, m: nat)
    requires m < |es| && es[m].Tried?
    ensures FiresAt(es, m) <==> Allowed(es, m)
  {
    StateIsHistory(es, m);
  }

  /** Nothing fires after a cancellation or a replacement, on either path. */
  lemma CancellationIsFinal(es: seq<Event>, k: nat, m: nat)
    requires k < m && k < |es| && es[k].Removed?
    ensures !FiresAt(es, m)
  {
    if m < |es| {
      StateIsHistory(es, m);
    }
  }

  /** Nothing fires between a pause and the next resumption, on either path. */
  lemma PausedUntilResumed(es: seq<Event>, k: nat, m: nat)
    requires k < m && k < |es| && es[k].Paused?
    requires forall r :: k < r < m && r < |es| ==> !es[r].Resumed?
    ensures !FiresAt(es, m)
  {
    if m < |es| {
      StateIsHistory(es, m);
    }
  }

  // ---------------------------------------------------------------- once in a minute

  /** A tick fires the job exactly when the job is due and was not already due earlier in a run of the same minute. */
  lemma CronFiresExactlyWhen(es: seq<Event>, m: nat)
    requires m < |es| && es[m].Ticked?
    ensures FiresAt(es, m) <==> Due(es, m) && !exists k :: LatestDue(es, m, k) && es[k].minute == es[m].minute
  {
    StateIsHistory(es, m);
    LastFireIsLatestDue(es, m);
    hide Allowed;
    if StateAt(es, m).lastFire.Some? {
      var k :| LatestDue(es, m, k) && es[k].minute == StateAt(es, m).lastFire.value;
      forall i | LatestDue(es, m, i) ensures i == k {
        assert i < k ==> !Due(es, k);
        assert k < i ==> !Due(es, i);
      }
    }
  }

  /** The minutes of the ticks never go back. */
  predicate NeverBack(es: seq<Event>) {
    forall a, b :: 0 <= a < b < |es| && es[a].Ticked? && es[b].Ticked? ==> es[a].minute <= es[b].minute
  }

  /** A minute in which the job was due comes again after it was due in another one. */
  predicate Returns(es: seq<Event>, a: int, b: int, c: int) {
    a < b < c && Due(es, a) && Due(es, b) && Due(es, c) && es[a].minute == es[c].minute != es[b].minute
  }

  predicate FiresTwice(es: seq<Event>, a: int, c: int) {
    a < c && FiresAt(es, a) && FiresAt(es, c) && es[a].Ticked? && es[c].Ticked? && es[a].minute == es[c].minute
  }

  /** Whenever a job is due it fires at that tick or at an earlier one of the same minute. */
  lemma {:induction false} DueHasFired(es: seq<Event>, m: int) returns (f: nat)
    requires Due(es, m)
    ensures f <= m && FiresAt(es, f) && es[f].Ticked? && es[f].minute == es[m].minute
    ensures forall i :: f <= i <= m && Due(es, i) ==> es[i].minute == es[m].minute
    decreases m
  {
    hide Allowed, FiresAt;
    CronFiresExactlyWhen(es, m);
    if exists k :: LatestDue(es, m, k) && es[k].minute == es[m].minute {
      var k :| LatestDue(es, m, k) && es[k].minute == es[m].minute;
      f := DueHasFired(es, k);
    } else {
      f := m;
    }
  }

  /** A job fires twice in one minute exactly when ticks make a minute come back. */
  lemma TwiceExactlyWhenTimeReturns(es: seq<Event>)
    ensures (exists a, c :: FiresTwice(es, a, c)) <==> (exists a, b, c :: Returns(es, a, b, c))
  {
    hide Allowed;
    if a, c :| FiresTwice(es, a, c) {
      CronFiresExactlyWhen(es, a);
      CronFiresExactlyWhen(es, c);
      LastFireIsLatestDue(es, c);
      assert Due(es, a) && Due(es, c);
      var b :| LatestDue(es, c, b);
      assert a <= b;
      assert Returns(es, a, b, c);
    }
    if a, b, c :| Returns(es, a, b, c) {
      var f := DueHasFired(es, a);
      var g := DueHasFired(es, c);
      assert !(g <= b <= c);
      assert FiresTwice(es, f, g);
    }
  }

  /** With a clock that never goes back a job fires once in every minute that saw it due, and in no other. */
  lemma OncePerMinute(es: seq<Event>, minute: int)
    requires NeverBack(es)
    ensures !exists a, c :: FiresTwice(es, a, c)
    ensures (exists m :: FiresAt(es, m) && es[m].Ticked? && es[m].minute == minute)
      <==> (exists m :: Due(es, m) && es[m].minute == minute)
  {
    TwiceExactlyWhenTimeReturns(es);
    hide Allowed;
    forall a, b, c | Returns(es, a, b, c) ensures false {
    }
    if m :| Due(es, m) && es[m].minute == minute {
      var f := DueHasFired(es, m);
    }
    if m :| FiresAt(es, m) && es[m].Ticked? && es[m].minute == minute {
      CronFiresExactlyWhen(es, m);
    }
  }

  /** A clock set back makes the same minute fire again. */
  lemma ClockSetBackFiresTwice(minute: int)
    ensures FiresTwice([Ticked(minute, true), Ticked(minute + 1, true), Ticked(minute, true)], 0, 2)
  {
    var es := [Ticked(minute, true), Ticked(minute + 1, true), Ticked(minute, true)];
    assert StateAt(es, 0) == AT_REGISTRATION;
    assert StateAt(es, 1).lastFire == Some(minute);
    assert StateAt(es, 2).lastFire == Some(minute + 1);
  }
}
