/** How long the client waits: for a silent connection before closing it, and between two connections. */
module Liveness {
  import opened Options
  import opened Gateway

  // ---------------------------------------------------------------- heartbeats

  /** The inputs that have arrived by a moment. */
  function ArrivedBy(stream: seq<Input>, now: int): (p: seq<Input>)
    ensures p <= stream
  {
    if stream == [] || stream[0].at > now then [] else [stream[0]] + ArrivedBy(stream[1..], now)
  }

  /** The latest acknowledgement that the client knows of at a moment. */
  function AckedAt(hello: int, stream: seq<Input>, now: int): int {
    LastAck(hello, ArrivedBy(stream, now))
  }

  function TickTime(started: int, interval: int, k: int): int {
    started + (k + 1) * interval
  }

  predicate Overdue(hello: int, stream: seq<Input>, interval: int, now: int) {
    now - AckedAt(hello, stream, now) > 3 * interval
  }

  /** Inputs come in the order of their times, after the greeting. */
  predicate InOrder(hello: int, stream: seq<Input>) {
    && (forall i :: 0 <= i < |stream| ==> hello <= stream[i].at)
    && (forall i, k :: 0 <= i < k < |stream| ==> stream[i].at <= stream[k].at)
  }

  /** A ticker that ticks every `interval` after `started`; `sent[k]` says whether the heartbeat of tick k can be written. */
  datatype Watch = Watch(interval: int, started: int, sent: seq<bool>)

  predicate GivesUp(hello: int, stream: seq<Input>, w: Watch, k: int) {
    0 <= k < |w.sent| && (Overdue(hello, stream, w.interval, TickTime(w.started, w.interval, k)) || !w.sent[k])
  }

  predicate ClosesAt(hello: int, stream: seq<Input>, w: Watch, k: int) {
    GivesUp(hello, stream, w, k) && forall i :: 0 <= i < k ==> !GivesUp(hello, stream, w, i)
  }

  /** The beat of a tick carries the sequence number that the inputs so far have left. */
  function BeatAt(session: Session, stream: seq<Input>, w: Watch, k: int): Outgoing {
    Beat(AfterAll(session, ArrivedBy(stream, TickTime(w.started, w.interval, k))))
  }

  /**
   * The loop that sends heartbeats on a connection opened with this session: the tick at which it
   * closes the connection, and the beats it has sent until then.
   */
  method HeartbeatLoop(session: Session, hello: int, stream: seq<Input>, w: Watch)
    returns (closedAt: Option<nat>, beats: seq<Outgoing>)
    ensures closedAt.None? ==> forall k :: !GivesUp(hello, stream, w, k)
    ensures closedAt.Some? ==> ClosesAt(hello, stream, w, closedAt.value)
    ensures |beats| == if closedAt.None? then |w.sent| else closedAt.value
    ensures forall k :: 0 <= k < |beats| ==> beats[k] == BeatAt(session, stream, w, k)
  {
    var now := w.started;
    beats := [];
    for k := 0 to |w.sent|
      invariant now == w.started + k * w.interval
      invariant forall i :: 0 <= i < k ==> !GivesUp(hello, stream, w, i)
      invariant |beats| == k && forall i :: 0 <= i < k ==> beats[i] == BeatAt(session, stream, w, i)
    {
      now := now + w.interval;
      assert now == TickTime(w.started, w.interval, k);
      if now - AckedAt(hello, stream, now) > 3 * w.interval {
        return Some(k), beats;
      }
      var current := AfterAll(session, ArrivedBy(stream, now));
      if !w.sent[k] {
        return Some(k), beats;
      }
      beats := beats + [Heartbeat(if current.last > 0 then Some(current.last) else None)];
    }
    return None, beats;
  }

  lemma {:induction false} AckIsPast(hello: int, stream: seq<Input>)
    requires InOrder(hello, stream)
    ensures hello <= LastAck(hello, stream)
    ensures forall n :: 0 <= n <= |stream| ==> LastAck(hello, stream[..n]) <= LastAck(hello, stream)
    ensures stream != [] ==> LastAck(hello, stream) <= stream[|stream| - 1].at
  {
    if stream != [] {
      var init := stream[..|stream| - 1];
      AckIsPast(hello, init);
      assert stream[..|stream|] == stream;
      forall n | 0 <= n < |stream| ensures LastAck(hello, stream[..n]) <= LastAck(hello, stream) {
        assert stream[..n] == init[..n];
      }
    }
  }

  /** The loop knows of no acknowledgement later than the last there is. */
  lemma NoneAfterTheLast(hello: int, stream: seq<Input>, now: int)
    requires InOrder(hello, stream)
    ensures AckedAt(hello, stream, now) <= LastAck(hello, stream)
  {
    AckIsPast(hello, stream);
    var p := ArrivedBy(stream, now);
    assert p == stream[..|p|];
  }

  lemma FirstTickAfter(started: int, interval: int, deadline: int) returns (k: nat)
    requires interval > 0 && started <= deadline
    ensures deadline < TickTime(started, interval, k) <= deadline + interval
  {
    var d := deadline - started;
    k := d / interval;
    assert d == k * interval + d % interval;
    assert TickTime(started, interval, k) == started + k * interval + interval;
  }

  lemma TicksAscend(started: int, interval: int, i: int, k: int)
    requires interval > 0
    ensures i <= k <==> TickTime(started, interval, i) <= TickTime(started, interval, k)
  {
    assert TickTime(started, interval, k) - TickTime(started, interval, i) == (k - i) * interval;
    if i <= k {
      assert (k - i) * interval >= 0;
    } else {
      assert (i - k) * interval > 0;
    }
  }

  /**
   * A connection that stays silent after an acknowledgement is closed, at most four intervals after
   * it, provided that the ticker was running in time and goes on long enough.
   */
  lemma SilenceIsNoticed(hello: int, stream: seq<Input>, w: Watch) returns (c: nat)
    requires w.interval > 0 && InOrder(hello, stream)
    requires w.started <= LastAck(hello, stream) + 3 * w.interval < TickTime(w.started, w.interval, |w.sent| - 1)
    ensures ClosesAt(hello, stream, w, c)
    ensures TickTime(w.started, w.interval, c) <= LastAck(hello, stream) + 4 * w.interval
  {
    var k := FirstTickAfter(w.started, w.interval, LastAck(hello, stream) + 3 * w.interval);
    NoneAfterTheLast(hello, stream, TickTime(w.started, w.interval, k));
    assert Overdue(hello, stream, w.interval, TickTime(w.started, w.interval, k));
    hide Overdue, TickTime;
    if k >= |w.sent| {
      TicksAscend(w.started, w.interval, |w.sent|, k);
      TicksAscend(w.started, w.interval, k - 1, |w.sent| - 1);
    }
    c := FirstToGiveUp(hello, stream, w, k);
    TicksAscend(w.started, w.interval, c, k);
  }

  lemma {:induction false} FirstToGiveUp(hello: int, stream: seq<Input>, w: Watch, k: nat) returns (c: nat)
    requires GivesUp(hello, stream, w, k)
    ensures c <= k && ClosesAt(hello, stream, w, c)
  {
    hide GivesUp;
    if i :| 0 <= i < k && GivesUp(hello, stream, w, i) {
      c := FirstToGiveUp(hello, stream, w, i);
    } else {
      c := k;
    }
  }

  /** Only a write that fails, or silence for more than three intervals, the greeting included, closes a connection. */
  lemma NeverClosedWhileAcknowledged(hello: int, stream: seq<Input>, w: Watch, k: nat)
    requires ClosesAt(hello, stream, w, k) && w.sent[k] && InOrder(hello, stream)
    ensures hello < TickTime(w.started, w.interval, k) - 3 * w.interval
    ensures forall i :: 0 <= i < |stream| && stream[i].Frame? && stream[i].op == HEARTBEAT_ACK ==>
      !(TickTime(w.started, w.interval, k) - 3 * w.interval <= stream[i].at <= TickTime(w.started, w.interval, k))
  {
    var now := TickTime(w.started, w.interval, k);
    var p := ArrivedBy(stream, now);
    assert p == stream[..|p|];
    AckIsPast(hello, p);
    assert now - AckedAt(hello, stream, now) > 3 * w.interval;
    hide TickTime, LastAck, ArrivedBy;
    forall i | 0 <= i < |stream| && stream[i].Frame? && stream[i].op == HEARTBEAT_ACK && stream[i].at <= now
      ensures stream[i].at <= AckedAt(hello, stream, now)
    {
      HasArrived(hello, stream, now, i);
      AckOfPrefix(hello, p, i);
    }
  }

  lemma AckOfPrefix(hello: int, p: seq<Input>, i: nat)
    requires i < |p| && p[i].Frame? && p[i].op == HEARTBEAT_ACK
    ensures LastAck(hello, p[..i + 1]) == p[i].at
  {
    assert p[..i + 1][i] == p[i];
  }

  lemma {:induction false} HasArrived(hello: int, stream: seq<Input>, now: int, i: nat)
    requires i < |stream| && stream[i].at <= now && InOrder(hello, stream)
    ensures i < |ArrivedBy(stream, now)|
  {
    if i > 0 {
      assert stream[0].at <= stream[i].at;
      HasArrived(hello, stream[1..], now, i - 1);
    }
  }

  // ---------------------------------------------------------------- reconnecting

  const SECOND := 1_000_000_000
  const MINUTE := 60_000_000_000

  /** One round of the reconnection loop: what the connection met, and how long it lasted in nanoseconds. */
  datatype Attempt = Attempt(connection: Connection, lasted: int)

  function Pow2(j: nat): (p: nat)
    ensures p >= 1
  {
    if j == 0 then 1 else 2 * Pow2(j - 1)
  }

  function Backoff(j: nat): int {
    if Pow2(j) < 30 then Pow2(j) * SECOND else 30 * SECOND
  }

  /** Round i is the latest one up to k that was stable, or the first of all. */
  predicate LastStable(attempts: seq<Attempt>, k: int, i: int) {
    && 0 <= i <= k < |attempts| && (i == 0 || attempts[i].lasted > MINUTE)
    && forall j :: i < j <= k ==> attempts[j].lasted <= MINUTE
  }

  /** Everything read on a series of connections. */
  function HeardIn(attempts: seq<Attempt>): seq<Input> {
    if attempts == [] then []
    else HeardIn(attempts[..|attempts| - 1]) + Heard(attempts[|attempts| - 1].connection)
  }

  /** Everything written on a series of connections, each opened as the history up to it demands. */
  function WrittenIn(h: seq<Input>, attempts: seq<Attempt>): seq<Outgoing> {
    if attempts == [] then []
    else
      var init := attempts[..|attempts| - 1];
      WrittenIn(h, init) + Written(h + HeardIn(init), attempts[|attempts| - 1].connection)
  }

  /** Connects again and again until it is stopped, after the given rounds. */
  method Start(c: Client, attempts: seq<Attempt>) returns (waits: seq<int>)
    requires c.Valid()
    modifies c
    ensures c.Valid() && |waits| == |attempts|
    ensures c.history == old(c.history) + HeardIn(attempts)
    ensures c.outbox == old(c.outbox) + WrittenIn(old(c.history), attempts)
    ensures forall k, i :: LastStable(attempts, k, i) ==> waits[k] == Backoff(k - i)
  {
    hide HeardIn, WrittenIn, Heard, Written;
    SeriesOfNone(c.history);
    assert attempts[..0] == [];
    var backoff := 1 * SECOND;
    var maxBackoff := 30 * SECOND;
    waits := [];
    ghost var base := 0;
    for k := 0 to |attempts|
      invariant c.Valid() && |waits| == k && 0 <= base <= k
      invariant c.history == old(c.history) + HeardIn(attempts[..k])
      invariant c.outbox == old(c.outbox) + WrittenIn(old(c.history), attempts[..k])
      invariant backoff == Backoff(k - base)
      invariant k == 0 ==> base == 0
      invariant k > 0 ==> LastStable(attempts, k - 1, base)
      invariant forall m, i :: m < k && LastStable(attempts, m, i) ==> waits[m] == Backoff(m - i)
    {
      c.Connect(attempts[k].connection);
      SeriesStep(old(c.history), attempts, k);
      if attempts[k].lasted > MINUTE {
        backoff := 1 * SECOND;
        base := k;
      }
      assert LastStable(attempts, k, base);
      OneLastStable(attempts, k, base);
      waits := waits + [backoff];
      backoff := backoff * 2;
      if backoff > maxBackoff {
        backoff := maxBackoff;
      }
    }
    assert attempts[..|attempts|] == attempts;
  }

  lemma SeriesOfNone(h: seq<Input>)
    ensures HeardIn([]) == [] && WrittenIn(h, []) == []
  {
  }

  lemma SeriesStep(h: seq<Input>, attempts: seq<Attempt>, k: nat)
    requires k < |attempts|
    ensures HeardIn(attempts[..k + 1]) == HeardIn(attempts[..k]) + Heard(attempts[k].connection)
    ensures WrittenIn(h, attempts[..k + 1])
      == WrittenIn(h, attempts[..k]) + Written(h + HeardIn(attempts[..k]), attempts[k].connection)
  {
    assert attempts[..k + 1][..k] == attempts[..k];
  }

  lemma OneLastStable(attempts: seq<Attempt>, k: int, i: int)
    requires LastStable(attempts, k, i)
    ensures forall j :: LastStable(attempts, k, j) ==> j == i
  {
  }
}
