/** Runs of the approval protocol put together move by move. */
module SshRuns {
  import opened SshRequest
  import opened SshApproval

  /** What the moves of a single request can see and change. */
  datatype View = View(r: Req, conn: Conn, pending: map<string, nat>, counter: int)

  function With(s: State, i: nat, v: View): State {
    State(s.cfg, s.reqs[i := v.r], s.conns[v.r.conn := v.conn], v.pending, v.counter)
  }

  function ViewOf(s: State, i: nat): View
    requires Linked(s) && i in s.reqs
  {
    View(s.reqs[i], s.conns[s.reqs[i].conn], s.pendingMap, s.pendingCounter)
  }

  predicate ViewCan(cfg: Config, v: View, m: Move) {
    m != ByRival(CleanupClaims) && CanMove(cfg, v.r, m) && ReadsShared(v.r, m, v.conn, v.pending, v.counter)
  }

  function ViewNext(v: View, i: nat, m: Move): View {
    View(Apply(v.r, m), ConnAfter(v.conn, v.r.id, i, m), MapAfter(v.pending, v.r.id, i, m), v.counter + CounterChange(m))
  }

  /** One more move of a request at the end of a run, worked out on its view. */
  lemma Advance(s: State, actions: seq<Action>, t: State, i: nat, v: View, m: Move) returns (more: seq<Action>, w: View)
    requires Linked(t) && i in t.reqs && t.reqs[i].conn == v.r.conn && Reaches(s, actions, With(t, i, v))
    requires ViewCan(t.cfg, v, m) && Apply(v.r, m).conn == v.r.conn
    ensures w == ViewNext(v, i, m) && Reaches(s, more, With(t, i, w))
  {
    hide Reaches, Apply, CanMove, ReadsShared, ConnAfter, MapAfter, CounterChange;
    var u := With(t, i, v);
    Then(s, actions, u, OnRequest(i, m));
    more, w := actions + [OnRequest(i, m)], ViewNext(v, i, m);
    assert StepNext(u, i, m) == With(t, i, w);
  }

  /** Has entered both maps and seen its connection open. */
  function PassedReq(conn: nat, id: string): Req {
    NewReq(conn, id).(sender := Build, registered := true, indexed := true, passed := true)
  }

  lemma ReserveSlot(s: State, actions: seq<Action>, t: State, i: nat, v: View) returns (more: seq<Action>, w: View)
    requires Linked(t) && Usable(t.cfg) && i in t.reqs && t.reqs[i].conn == v.r.conn && v.r == NewReq(v.r.conn, v.r.id)
    requires v.counter + 1 <= MAX_PENDING_REQUESTS
    requires Reaches(s, actions, With(t, i, v))
    ensures w == v.(r := v.r.(sender := Register), counter := v.counter + 1)
    ensures Reaches(s, more, With(t, i, w))
  {
    hide Reaches, With, Linked, Usable, WinnerCan, WinnerApply, RivalCan, RivalApply;
    more, w := Advance(s, actions, t, i, v, BySender(Begin(true)));
    more, w := Advance(s, more, t, i, w, BySender(Reserved(true)));
  }

  lemma EnterMaps(s: State, actions: seq<Action>, t: State, i: nat, v: View) returns (more: seq<Action>, w: View)
    requires Linked(t) && i in t.reqs && t.reqs[i].conn == v.r.conn && v.r == NewReq(v.r.conn, v.r.id).(sender := Register)
    requires v.r.id !in v.pending && v.conn.active
    requires Reaches(s, actions, With(t, i, v))
    ensures w == View(PassedReq(v.r.conn, v.r.id), Put(v.conn, v.r.id, i), v.pending[v.r.id := i], v.counter)
    ensures Reaches(s, more, With(t, i, w))
  {
    hide Reaches, With, Linked;
    more, w := Advance(s, actions, t, i, v, BySender(Registered(false)));
    more, w := Advance(s, more, t, i, w, BySender(Indexed));
    more, w := Advance(s, more, t, i, w, BySender(CheckedActive(true)));
  }

  lemma Admit(s: State, actions: seq<Action>, t: State, i: nat, v: View) returns (more: seq<Action>, w: View)
    requires Linked(t) && Usable(t.cfg) && i in t.reqs && v == ViewOf(t, i) && v.r == NewReq(v.r.conn, v.r.id)
    requires v.counter + 1 <= MAX_PENDING_REQUESTS && v.r.id !in v.pending && v.conn.active
    requires Reaches(s, actions, t)
    ensures w == View(PassedReq(v.r.conn, v.r.id), Put(v.conn, v.r.id, i), v.pending[v.r.id := i], v.counter + 1)
    ensures Reaches(s, more, With(t, i, w))
  {
    assert t == With(t, i, v);
    hide Reaches, Put, Usable;
    more, w := ReserveSlot(s, actions, t, i, v);
    more, w := EnterMaps(s, more, t, i, w);
  }

  lemma NoAction(s: State)
    ensures Reaches(s, [], s)
  {
  }

  // ---------------------------------------------------------------- an answered request

  /** Its message is up and its timer runs. */
  function WaitingReq(conn: nat, id: string): Req {
    PassedReq(conn, id).(sender := Returned, clickable := true, shown := Message(true), msg := Message(true), timer := Running)
  }

  /** A click has won it, and it has left the maps. */
  function ClickedReq(conn: nat, id: string, approved: bool, click: Click): Req {
    WaitingReq(conn, id).(resolved := true, winner := ByCallback(approved, click), wins := 1, winnerPc := TestActive, timer := Stopped)
  }

  lemma SendMessage(s: State, actions: seq<Action>, t: State, i: nat, v: View) returns (more: seq<Action>, w: View)
    requires Linked(t) && i in t.reqs && t.reqs[i].conn == v.r.conn && v.r == PassedReq(v.r.conn, v.r.id)
    requires Reaches(s, actions, With(t, i, v))
    ensures w == v.(r := WaitingReq(v.r.conn, v.r.id)) && Reaches(s, more, With(t, i, w))
  {
    hide Reaches, With, Linked, RivalCan, RivalApply, WinnerCan, WinnerApply;
    more, w := Advance(s, actions, t, i, v, BySender(Built(true)));
    more, w := Advance(s, more, t, i, w, BySender(SendDone(true, true)));
    more, w := StartTimer(s, more, t, i, w);
  }

  /** Its message is up, and it has not been noted yet. */
  function ShownReq(conn: nat, id: string): Req {
    PassedReq(conn, id).(sender := Publish, clickable := true, shown := Message(true))
  }

  lemma StartTimer(s: State, actions: seq<Action>, t: State, i: nat, v: View) returns (more: seq<Action>, w: View)
    requires Linked(t) && i in t.reqs && t.reqs[i].conn == v.r.conn && v.r == ShownReq(v.r.conn, v.r.id)
    requires Reaches(s, actions, With(t, i, v))
    ensures w == v.(r := WaitingReq(v.r.conn, v.r.id)) && Reaches(s, more, With(t, i, w))
  {
    hide Reaches, With, Linked, RivalCan, RivalApply, WinnerCan, WinnerApply;
    more, w := Advance(s, actions, t, i, v, BySender(Published));
    more, w := Advance(s, more, t, i, w, BySender(Rechecked));
    more, w := Advance(s, more, t, i, w, BySender(Armed));
  }

  lemma WinByClick(s: State, actions: seq<Action>, t: State, i: nat, v: View, approved: bool, click: Click)
    returns (more: seq<Action>, w: View)
    requires Linked(t) && i in t.reqs && t.reqs[i].conn == v.r.conn && v.r == WaitingReq(v.r.conn, v.r.id)
    requires Authorized(t.cfg, click) && Reaches(s, actions, With(t, i, v))
    ensures w == View(ClickedReq(v.r.conn, v.r.id, approved, click), Drop(v.conn, v.r.id), v.pending - {v.r.id}, v.counter - 1)
    ensures Reaches(s, more, With(t, i, w))
  {
    hide Reaches, With, Linked, Authorized, SenderCan, SenderApply, Drop;
    more, w := Advance(s, actions, t, i, v, ByRival(ClickClaims(approved, click)));
    more, w := Advance(s, more, t, i, w, ByWinner(TimerStopped));
    more, w := Advance(s, more, t, i, w, ByWinner(Unregistered));
    more, w := Advance(s, more, t, i, w, ByWinner(Unindexed));
    more, w := Advance(s, more, t, i, w, ByWinner(Released));
  }

  lemma Deliver(s: State, actions: seq<Action>, t: State, i: nat, v: View, approved: bool, click: Click)
    returns (more: seq<Action>, w: View)
    requires Linked(t) && i in t.reqs && t.reqs[i].conn == v.r.conn && v.r == ClickedReq(v.r.conn, v.r.id, approved, click)
    requires v.conn.active && Reaches(s, actions, With(t, i, v))
    ensures w.r.status.Delivered? && w.r.writes == [approved] && w.r.winnerPc.Finished? && w.r.conn == v.r.conn
    ensures Reaches(s, more, With(t, i, w))
  {
    hide Reaches, With, Linked, RivalCan, RivalApply, SenderCan, SenderApply;
    more, w := Advance(s, actions, t, i, v, ByWinner(TestedActive(true)));
    more, w := Advance(s, more, t, i, w, ByWinner(TestedLocked(true)));
    more, w := Advance(s, more, t, i, w, ByWinner(DeadlineSet(true)));
    more, w := WriteAnswer(s, more, t, i, w, approved, click);
  }

  lemma WriteAnswer(s: State, actions: seq<Action>, t: State, i: nat, v: View, approved: bool, click: Click)
    returns (more: seq<Action>, w: View)
    requires Linked(t) && i in t.reqs && t.reqs[i].conn == v.r.conn
    requires v.r == ClickedReq(v.r.conn, v.r.id, approved, click).(winnerPc := Encode)
    requires Reaches(s, actions, With(t, i, v))
    ensures w.r.status.Delivered? && w.r.writes == [approved] && w.r.winnerPc.Finished? && w.r.conn == v.r.conn
    ensures Reaches(s, more, With(t, i, w))
  {
    hide Reaches, With, Linked, RivalCan, RivalApply, SenderCan, SenderApply;
    more, w := Advance(s, actions, t, i, v, ByWinner(Encoded(true)));
    more, w := Advance(s, more, t, i, w, ByWinner(Concluded));
  }

  /** With a configured plugin every request has a run in which either answer of anybody who may answer is delivered. */
  lemma EitherAnswerCanBeDelivered(s: State, i: nat, approved: bool, click: Click) returns (actions: seq<Action>, t: State)
    requires Init(s) && i in s.reqs && s.cfg.enabled && s.cfg.hasClient && s.cfg.groupId != "" && click.groupId == s.cfg.groupId
    requires if s.cfg.allowedUsers != [] then click.userId in s.cfg.allowedUsers else click.role in {"", "admin", "owner"}
    ensures Reaches(s, actions, t) && i in t.reqs && t.reqs[i].status.Delivered? && t.reqs[i].writes == [approved]
  {
    assert Usable(s.cfg) && Authorized(s.cfg, click);
    assert Reaches(s, [], s) by { NoAction(s); }
    hide Reaches, Usable, Authorized;
    var v: View;
    actions, v := Admit(s, [], s, i, ViewOf(s, i));
    actions, v := SendMessage(s, actions, s, i, v);
    actions, v := WinByClick(s, actions, s, i, v, approved, click);
    actions, v := Deliver(s, actions, s, i, v, approved, click);
    t := With(s, i, v);
  }

  // ---------------------------------------------------------------- a request that times out

  /** Its timer has won it, and it has left the maps. */
  function ExpiredReq(conn: nat, id: string): Req {
    WaitingReq(conn, id).(resolved := true, winner := ByTimer, wins := 1, winnerPc := ReadMessage, timer := Fired, status := TimedOut)
  }

  lemma WinByTimer(s: State, actions: seq<Action>, t: State, i: nat, v: View) returns (more: seq<Action>, w: View)
    requires Linked(t) && i in t.reqs && t.reqs[i].conn == v.r.conn && v.r == WaitingReq(v.r.conn, v.r.id)
    requires Reaches(s, actions, With(t, i, v))
    ensures w.r == WaitingReq(v.r.conn, v.r.id).(resolved := true, winner := ByTimer, wins := 1, winnerPc := SetStatus, timer := Fired)
    ensures Reaches(s, more, With(t, i, w))
  {
    hide Reaches, With, Linked, SenderCan, SenderApply, WinnerCan, WinnerApply;
    more, w := Advance(s, actions, t, i, v, ByRival(TimerFires));
    more, w := Advance(s, more, t, i, w, ByRival(TimerClaims));
  }

  lemma LeaveExpired(s: State, actions: seq<Action>, t: State, i: nat, v: View) returns (more: seq<Action>, w: View)
    requires Linked(t) && i in t.reqs && t.reqs[i].conn == v.r.conn
    requires v.r == ExpiredReq(v.r.conn, v.r.id).(winnerPc := SetStatus, status := Pending) && Reaches(s, actions, With(t, i, v))
    ensures w.r == ExpiredReq(v.r.conn, v.r.id) && Reaches(s, more, With(t, i, w))
  {
    hide Reaches, With, Linked, SenderCan, SenderApply, RivalCan, RivalApply, Drop;
    more, w := Advance(s, actions, t, i, v, ByWinner(StatusSet));
    more, w := Advance(s, more, t, i, w, ByWinner(TimerStopped));
    more, w := Advance(s, more, t, i, w, ByWinner(Unregistered));
    more, w := Advance(s, more, t, i, w, ByWinner(Unindexed));
    more, w := Advance(s, more, t, i, w, ByWinner(Released));
  }

  lemma RecallExpired(s: State, actions: seq<Action>, t: State, i: nat, v: View) returns (more: seq<Action>, w: View)
    requires Linked(t) && i in t.reqs && t.reqs[i].conn == v.r.conn
    requires v.r == ExpiredReq(v.r.conn, v.r.id) && Reaches(s, actions, With(t, i, v))
    ensures w.r == ExpiredReq(v.r.conn, v.r.id).(winnerPc := Finished, recalls := 1) && Reaches(s, more, With(t, i, w))
  {
    hide Reaches, With, Linked, SenderCan, SenderApply, RivalCan, RivalApply;
    more, w := Advance(s, actions, t, i, v, ByWinner(MessageRead));
    more, w := Advance(s, more, t, i, w, ByWinner(Withdrawn));
  }

  /** Every request also has a run in which nobody answers, its timer goes off, and its message is recalled once. */
  lemma EveryRequestCanTimeOut(s: State, i: nat) returns (actions: seq<Action>, t: State)
    requires Init(s) && i in s.reqs && s.cfg.enabled && s.cfg.hasClient && s.cfg.groupId != ""
    ensures Reaches(s, actions, t) && i in t.reqs && t.reqs[i].status.TimedOut? && t.reqs[i].writes == [] && t.reqs[i].recalls == 1
  {
    assert Usable(s.cfg);
    assert Reaches(s, [], s) by { NoAction(s); }
    hide Reaches, Usable;
    var v: View;
    actions, v := Admit(s, [], s, i, ViewOf(s, i));
    actions, v := SendMessage(s, actions, s, i, v);
    actions, v := WinByTimer(s, actions, s, i, v);
    actions, v := LeaveExpired(s, actions, s, i, v);
    actions, v := RecallExpired(s, actions, s, i, v);
    t := With(s, i, v);
  }
}
