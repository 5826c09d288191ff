/**
 * The client's end of the gateway: the session it may resume, as the messages of all its connections
 * leave it. The methods edit the client's fields; what the fields must be is said of the history.
 */
module Gateway {
  import opened Options

  const DISPATCH := 0
  const HEARTBEAT := 1
  const RECONNECT := 7
  const INVALID_SESSION := 9
  const HEARTBEAT_ACK := 11

  /** What reading the connection gives. `session` is the session id of READY data, if the data is readable. */
  datatype Input =
    | Garbled(at: int)
    | Frame(at: int, op: int, s: int, t: string, session: Option<string>)
    | Closed(at: int, code: int)   // a close frame
    | Broken(at: int)              // any other read error

  datatype Session = Session(id: string, last: int, canResume: bool)

  datatype Outgoing =
    | Identify
    | Resume(session: string, last: int)
    | Heartbeat(d: Option<int>)

  /** Close codes after which the server no longer knows the session, or refuses the client altogether. */
  predicate IsFatal(code: int) {
    code in {4006, 4007} || code in {4001, 4002, 4010, 4011, 4012, 4013, 4014, 4914, 4915}
  }

  const NO_SESSION := Session("", 0, false)

  // ---------------------------------------------------------------- the fold over the history

  function OnDispatch(s: Session, t: string, session: Option<string>): Session {
    if t == "READY" && session.Some? then s.(id := session.value, canResume := true)
    else if t == "RESUMED" then s.(canResume := true)
    else s
  }

  function OnFrame(s: Session, e: Input): Session
    requires e.Frame?
  {
    var s := if e.s > 0 then s.(last := e.s) else s;
    if e.op == DISPATCH then OnDispatch(s, e.t, e.session)
    else if e.op == RECONNECT then s.(canResume := true)
    else if e.op == INVALID_SESSION then NO_SESSION
    else s
  }

  function OnDisconnect(s: Session, code: Option<int>): Session {
    if code.Some? && code.value in {4008, 4009} then s.(canResume := true)
    else if code.Some? && IsFatal(code.value) then NO_SESSION
    else s.(canResume := s.canResume || s.id != "")
  }

  function After(s: Session, e: Input): Session {
    match e
    case Garbled(_) => s
    case Frame(_, _, _, _, _) => OnFrame(s, e)
    case Closed(_, code) => OnDisconnect(s, Some(code))
    case Broken(_) => OnDisconnect(s, None)
  }

  function SessionAt(h: seq<Input>, m: nat): Session
    requires m <= |h|
  {
    if m == 0 then NO_SESSION else After(SessionAt(h, m - 1), h[m - 1])
  }

  function Opening(s: Session): Outgoing {
    if s.canResume && s.id != "" then Resume(s.id, s.last) else Identify
  }

  // ---------------------------------------------------------------- the history read directly

  predicate Resets(e: Input) {
    (e.Frame? && e.op == INVALID_SESSION) || (e.Closed? && IsFatal(e.code))
  }

  predicate Grants(e: Input) {
    e.Frame? && e.op == DISPATCH && e.t == "READY" && e.session.Some?
  }

  predicate Numbers(e: Input) {
    e.Frame? && e.s > 0 && !Resets(e)
  }

  predicate NoReset(h: seq<Input>, a: int, b: int) {
    forall i :: 0 <= a <= i < b <= |h| ==> !Resets(h[i])
  }

  /** The READY whose session is still good after `m` inputs. */
  predicate LiveGrant(h: seq<Input>, m: int, i: int) {
    0 <= i < m <= |h| && Grants(h[i]) && NoReset(h, i, m) && forall j :: i < j < m ==> !Grants(h[j])
  }

  /** The latest input with a positive sequence number, if there has been no reset since. */
  predicate LiveNumber(h: seq<Input>, m: int, i: int) {
    0 <= i < m <= |h| && Numbers(h[i]) && NoReset(h, i, m) && forall j :: i < j < m ==> !Numbers(h[j])
  }

  lemma OneLiveGrant(h: seq<Input>, m: nat, i: int, j: int)
    requires LiveGrant(h, m, i) && LiveGrant(h, m, j)
    ensures i == j
  {
  }

  lemma OneLiveNumber(h: seq<Input>, m: nat, i: int, j: int)
    requires LiveNumber(h, m, i) && LiveNumber(h, m, j)
    ensures i == j
  {
  }

  lemma LiveGrantStep(h: seq<Input>, m: nat, i: int)
    requires m < |h|
    ensures LiveGrant(h, m + 1, i) <==> !Resets(h[m]) && if Grants(h[m]) then i == m else LiveGrant(h, m, i)
  {
  }

  lemma LiveNumberStep(h: seq<Input>, m: nat, i: int)
    requires m < |h|
    ensures LiveNumber(h, m + 1, i) <==> !Resets(h[m]) && if Numbers(h[m]) then i == m else LiveNumber(h, m, i)
  {
  }

  /** The client's session id is that of the live READY, and a client with a session may resume. */
  lemma {:induction false} SessionIsHistory(h: seq<Input>, m: nat)
    requires m <= |h|
    ensures SessionAt(h, m).id != "" ==> SessionAt(h, m).canResume
    ensures SessionAt(h, m).id != "" ==> exists i :: LiveGrant(h, m, i) && h[i].session.value == SessionAt(h, m).id
    ensures forall i :: LiveGrant(h, m, i) ==> h[i].session.value == SessionAt(h, m).id
  {
    if m > 0 {
      SessionIsHistory(h, m - 1);
      forall i ensures LiveGrant(h, m, i) <==>
        !Resets(h[m - 1]) && if Grants(h[m - 1]) then i == m - 1 else LiveGrant(h, m - 1, i)
      {
        LiveGrantStep(h, m - 1, i);
      }
      assert LiveGrant(h, m, m - 1) <==> Grants(h[m - 1]) && !Resets(h[m - 1]);
      hide LiveGrant;
    }
  }

  /** The client's sequence number is the live one, or zero. */
  lemma {:induction false} SequenceIsHistory(h: seq<Input>, m: nat)
    requires m <= |h|
    ensures SessionAt(h, m).last >= 0
    ensures SessionAt(h, m).last > 0 ==> exists i :: LiveNumber(h, m, i) && h[i].s == SessionAt(h, m).last
    ensures forall i :: LiveNumber(h, m, i) ==> h[i].s == SessionAt(h, m).last
  {
    if m > 0 {
      SequenceIsHistory(h, m - 1);
      forall i ensures LiveNumber(h, m, i) <==>
        !Resets(h[m - 1]) && if Numbers(h[m - 1]) then i == m - 1 else LiveNumber(h, m - 1, i)
      {
        LiveNumberStep(h, m - 1, i);
      }
      assert LiveNumber(h, m, m - 1) <==> Numbers(h[m - 1]);
      hide LiveNumber;
    }
  }

  /**
   * A connection is opened with Resume exactly when a READY gave a session that has not been
   * invalidated since; the Resume names that session and the last sequence number since the last
   * reset. There is never more than one such READY, nor more than one such number.
   */
  lemma ResumesExactlyTheLiveSession(h: seq<Input>)
    ensures forall i, j :: LiveGrant(h, |h|, i) && LiveGrant(h, |h|, j) ==> i == j
    ensures forall i, j :: LiveNumber(h, |h|, i) && LiveNumber(h, |h|, j) ==> i == j
    ensures Opening(SessionAt(h, |h|)).Resume? <==> exists i :: LiveGrant(h, |h|, i) && h[i].session.value != ""
    ensures Opening(SessionAt(h, |h|)).Resume? ==>
      exists i :: LiveGrant(h, |h|, i) && h[i].session.value == Opening(SessionAt(h, |h|)).session
    ensures Opening(SessionAt(h, |h|)).Resume? ==>
      if exists i :: LiveNumber(h, |h|, i)
      then exists i :: LiveNumber(h, |h|, i) && h[i].s == Opening(SessionAt(h, |h|)).last
      else Opening(SessionAt(h, |h|)).last == 0
  {
    SessionIsHistory(h, |h|);
    SequenceIsHistory(h, |h|);
    hide LiveGrant, LiveNumber, SessionAt;
    forall i, j | LiveGrant(h, |h|, i) && LiveGrant(h, |h|, j) ensures i == j {
      OneLiveGrant(h, |h|, i, j);
    }
    forall i, j | LiveNumber(h, |h|, i) && LiveNumber(h, |h|, j) ensures i == j {
      OneLiveNumber(h, |h|, i, j);
    }
  }

  /** The server's sequence numbers do not fall between resets. */
  predicate ServerCounts(h: seq<Input>) {
    forall i, k :: 0 <= i < k < |h| && Numbers(h[i]) && Numbers(h[k]) && NoReset(h, i, k + 1) ==> h[i].s <= h[k].s
  }

  /** Between resets the client's sequence number never falls. */
  lemma {:induction false} SequenceNeverFalls(h: seq<Input>, a: nat, b: nat)
    requires a <= b <= |h| && ServerCounts(h) && NoReset(h, a, b)
    ensures SessionAt(h, a).last <= SessionAt(h, b).last
  {
    if a < b {
      assert NoReset(h, a, b - 1);
      SequenceNeverFalls(h, a, b - 1);
      SequenceIsHistory(h, b - 1);
      if SessionAt(h, b - 1).last > 0 && Numbers(h[b - 1]) {
        var i :| LiveNumber(h, b - 1, i) && h[i].s == SessionAt(h, b - 1).last;
        assert NoReset(h, i, b);
      }
    }
  }

  // ---------------------------------------------------------------- the client

  predicate Ends(e: Input) {
    e.Closed? || e.Broken? || (e.Frame? && (e.op == RECONNECT || e.op == INVALID_SESSION))
  }

  function Beat(s: Session): Outgoing {
    Heartbeat(if s.last > 0 then Some(s.last) else None)
  }

  /** What the client writes while reading these inputs. */
  function Replies(s: Session, stream: seq<Input>): seq<Outgoing> {
    if stream == [] then []
    else var e := stream[|stream| - 1];
      Replies(s, stream[..|stream| - 1]) +
      if e.Frame? && e.op == HEARTBEAT then [Beat(AfterAll(s, stream))] else []
  }

  function AfterAll(s: Session, stream: seq<Input>): Session {
    if stream == [] then s else After(AfterAll(s, stream[..|stream| - 1]), stream[|stream| - 1])
  }

  /** When the latest heartbeat was acknowledged; the greeting of the connection counts as one. */
  function LastAck(hello: int, stream: seq<Input>): int {
    if stream == [] then hello
    else var e := stream[|stream| - 1];
      if e.Frame? && e.op == HEARTBEAT_ACK then e.at else LastAck(hello, stream[..|stream| - 1])
  }

  lemma {:induction false} SessionOfPrefix(h: seq<Input>, p: seq<Input>)
    requires p <= h
    ensures SessionAt(h, |p|) == SessionAt(p, |p|)
    decreases |p|
  {
    if p != [] {
      var init := p[..|p| - 1];
      SessionOfPrefix(h, init);
      SessionOfPrefix(p, init);
    }
  }

  /**
   * What a connection attempt meets: it may fail before the greeting; the access token may be
   * unavailable, so that nothing is handed to the connection; the opening may fail to be sent.
   */
  datatype Connection =
    | Refused
    | Greeted(hello: int, token: bool, sent: bool, stream: seq<Input>)

  lemma NothingRead(s: Session, acked: int)
    ensures AfterAll(s, []) == s && Replies(s, []) == [] && LastAck(acked, []) == acked
  {
  }

  /** One input further: the session, the replies and the latest acknowledgement. */
  lemma ReadStep(h: seq<Input>, s: Session, acked: int, stream: seq<Input>, n: nat)
    requires n < |stream|
    ensures var e, read, more := stream[n], stream[..n], stream[..n + 1];
      && SessionAt(h + [e], |h + [e]|) == After(SessionAt(h, |h|), e)
      && AfterAll(s, more) == After(AfterAll(s, read), e)
      && Replies(s, more) == Replies(s, read) + (if e.Frame? && e.op == HEARTBEAT then [Beat(AfterAll(s, more))] else [])
      && LastAck(acked, more) == (if e.Frame? && e.op == HEARTBEAT_ACK then e.at else LastAck(acked, read))
  {
    hide After;
    assert stream[..n + 1][..n] == stream[..n];
    SessionOfPrefix(h + [stream[n]], h);
  }

  /** What is read of a stream before the connection ends. */
  function UpToEnd(stream: seq<Input>): (p: seq<Input>)
    ensures p <= stream
  {
    if stream == [] then []
    else if Ends(stream[0]) then stream[..1]
    else [stream[0]] + UpToEnd(stream[1..])
  }

  lemma {:induction false} ReadsUpToEnd(stream: seq<Input>, n: nat)
    requires n <= |stream| && forall i :: 0 <= i < n - 1 ==> !Ends(stream[i])
    requires n < |stream| ==> n > 0 && Ends(stream[n - 1])
    ensures UpToEnd(stream) == stream[..n]
  {
    if stream != [] && !Ends(stream[0]) {
      assert forall i :: 0 <= i < n - 2 ==> stream[1..][i] == stream[i + 1];
      ReadsUpToEnd(stream[1..], n - 1);
      assert stream[..n] == [stream[0]] + stream[1..][..n - 1];
    }
  }

  function Heard(c: Connection): seq<Input> {
    if c.Refused? || !c.token || !c.sent then [] else UpToEnd(c.stream)
  }

  /** What is handed to a connection that follows this history, by the goroutine that reads it: the opening, then the replies. */
  function Written(h: seq<Input>, c: Connection): seq<Outgoing> {
    if c.Refused? || !c.token then []
    else [Opening(SessionAt(h, |h|))] + Replies(SessionAt(h, |h|), Heard(c))
  }

  class Client {
    var sessionID: string
    var latestSeq: int
    var canResume: bool
    var lastAckReceived: int
    var outbox: seq<Outgoing>      // what the reading goroutine handed to the connections
    ghost var history: seq<Input>  // everything read on all connections so far

    ghost predicate Valid()
      reads this
    {
      Session(sessionID, latestSeq, canResume) == SessionAt(history, |history|)
    }

    function Current(): Session
      reads this
    {
      Session(sessionID, latestSeq, canResume)
    }

    constructor ()
      ensures Valid() && history == [] && outbox == []
    {
      sessionID, latestSeq, canResume, lastAckReceived, outbox, history := "", 0, false, 0, [], [];
    }

    method HandleDispatch(t: string, session: Option<string>)
      modifies this`sessionID, this`canResume
      ensures Current() == OnDispatch(old(Current()), t, session)
    {
      if t == "READY" {
        if session.None? {
          return;
        }
        sessionID := session.value;
        canResume := true;
      } else if t == "RESUMED" {
        canResume := true;
      }
    }

    method HandleDisconnect(code: Option<int>)
      modifies this`sessionID, this`latestSeq, this`canResume
      ensures Current() == OnDisconnect(old(Current()), code)
    {
      if code.Some? {
        if code.value == 4009 || code.value == 4008 {
          canResume := true;
        } else if code.value in {4006, 4007} {
          sessionID, latestSeq, canResume := "", 0, false;
        } else if code.value in {4001, 4002, 4010, 4011, 4012, 4013, 4014, 4914, 4915} {
          sessionID, latestSeq, canResume := "", 0, false;
        } else if sessionID != "" {
          canResume := true;
        }
      } else if sessionID != "" {
        canResume := true;
      }
    }

    method SendHeartbeat()
      modifies this`outbox
      ensures outbox == old(outbox) + [Beat(Current())]
    {
      outbox := outbox + [Heartbeat(if latestSeq > 0 then Some(latestSeq) else None)];
    }

    /** One input; tells whether it ends the connection. */
    method Receive(e: Input) returns (ends: bool)
      modifies this`sessionID, this`latestSeq, this`canResume, this`lastAckReceived, this`outbox
      ensures ends == Ends(e)
      ensures Current() == After(old(Current()), e)
      ensures lastAckReceived == if e.Frame? && e.op == HEARTBEAT_ACK then e.at else old(lastAckReceived)
      ensures outbox == old(outbox) + if e.Frame? && e.op == HEARTBEAT then [Beat(Current())] else []
    {
      match e
      case Closed(_, code) =>
        HandleDisconnect(Some(code));
        return true;
      case Broken(_) =>
        HandleDisconnect(None);
        return true;
      case Garbled(_) =>
        return false;
      case Frame(at, op, s, t, session) =>
        if s > 0 {
          latestSeq := s;
        }
        if op == DISPATCH {
          HandleDispatch(t, session);
        } else if op == HEARTBEAT {
          SendHeartbeat();
        } else if op == HEARTBEAT_ACK {
          lastAckReceived := at;
        } else if op == RECONNECT {
          canResume := true;
          return true;
        } else if op == INVALID_SESSION {
          sessionID, latestSeq, canResume := "", 0, false;
          return true;
        }
        return false;
    }

    /** Reads until an input ends the connection, or until nothing more has come. */
    method ReadLoop(stream: seq<Input>)
      requires Valid()
      modifies this
      ensures Valid() && history == old(history) + UpToEnd(stream)
      ensures outbox == old(outbox) + Replies(old(Current()), UpToEnd(stream))
      ensures lastAckReceived == LastAck(old(lastAckReceived), UpToEnd(stream))
    {
      hide UpToEnd, Replies, LastAck, AfterAll, SessionAt, After;
      NothingRead(old(Current()), old(lastAckReceived));
      var n := 0;
      assert stream[..0] == [];
      var ends := false;
      while n < |stream| && !ends
        invariant n <= |stream|
        invariant Valid() && history == old(history) + stream[..n]
        invariant Current() == AfterAll(old(Current()), stream[..n])
        invariant forall i :: 0 <= i < n - 1 ==> !Ends(stream[i])
        invariant n > 0 ==> ends == Ends(stream[n - 1])
        invariant ends ==> n > 0
        invariant outbox == old(outbox) + Replies(old(Current()), stream[..n])
        invariant lastAckReceived == LastAck(old(lastAckReceived), stream[..n])
      {
        ReadStep(history, old(Current()), old(lastAckReceived), stream, n);
        ends := Receive(stream[n]);
        history := history + [stream[n]];
        n := n + 1;
      }
      ReadsUpToEnd(stream, n);
    }

    /** Opens a connection with Resume or Identify. */
    method Authenticate()
      modifies this`outbox
      ensures outbox == old(outbox) + [Opening(Current())]
    {
      if canResume && sessionID != "" {
        outbox := outbox + [Resume(sessionID, latestSeq)];
      } else {
        outbox := outbox + [Identify];
      }
    }

    /** One connection from the attempt to its end. */
    method Connect(c: Connection)
      requires Valid()
      modifies this
      ensures Valid() && history == old(history) + Heard(c)
      ensures outbox == old(outbox) + Written(old(history), c)
      ensures lastAckReceived == if c.Refused? then old(lastAckReceived) else LastAck(c.hello, Heard(c))
    {
      hide UpToEnd, SessionAt, Opening;
      match c
      case Refused =>
      case Greeted(hello, token, sent, stream) =>
        lastAckReceived := hello;
        if token {
          Authenticate();
          if sent {
            ReadLoop(stream);
          }
        }
    }
  }
}
