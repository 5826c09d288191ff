/**
 * Which requests a closing connection may leave behind. A connection's map is cleaned by key
 * alone, so what decides is whether two requests of a connection ever share an ID.
 */
module SshOrphans {
  import opened SshRequest
  import opened SshApproval
  import opened SshRuns

  /** No two requests share both connection and ID. */
  ghost predicate DistinctTags(s: State) {
    forall i, j :: i in s.reqs && j in s.reqs && s.reqs[i].conn == s.reqs[j].conn && s.reqs[i].id == s.reqs[j].id ==> i == j
  }

  /** The request's entry is in its connection's map, and the cleanup has yet to deal with it. */
  predicate Covered(s: State, i: nat)
    requires Linked(s) && i in s.reqs
  {
    var id, conn := s.reqs[i].id, s.conns[s.reqs[i].conn];
    && id in conn.pending && conn.pending[id] == i
    && match conn.cleanup
       case NotStarted => true
       case Done => false
       case Claiming(key, value) => value == i || (id in conn.required && id !in conn.visited)
       case _ => id in conn.required && id !in conn.visited
  }

  /** It must be covered: it can be found, nobody has won it, and the walk has not begun without it. */
  predicate NeedsCover(s: State, i: nat)
    requires Linked(s) && i in s.reqs
  {
    var r := s.reqs[i];
    r.indexed && !r.resolved && (r.passed || s.conns[r.conn].cleanup.NotStarted?)
  }

  ghost predicate CoverInv(s: State)
    requires Linked(s)
  {
    forall i :: i in s.reqs && NeedsCover(s, i) ==> Covered(s, i)
  }

  /** What the moves of a request mean for the cover of its own entry. */
  ghost predicate CoverMoves(r: Req, m: Move, r': Req) {
    && r'.conn == r.conn && r'.id == r.id
    && (r.resolved ==> r'.resolved)
    && (r'.indexed && !r.indexed ==> m == BySender(Indexed))
    && (r'.passed && !r.passed ==> m == BySender(CheckedActive(true)) && r.indexed)
    && (m == BySender(Indexed) ==> !r.passed)
    && (m == ByWinner(Unindexed) ==> r.resolved)
  }

  lemma SenderCoverMoves(cfg: Config, r: Req, m: SenderMove)
    requires ClaimInv(cfg, r) && SenderCan(cfg, r, m)
    ensures CoverMoves(r, BySender(m), SenderApply(r, m))
  {
  }

  lemma WinnerCoverMoves(cfg: Config, r: Req, m: WinnerMove)
    requires ClaimInv(cfg, r) && WinnerCan(r, m)
    ensures CoverMoves(r, ByWinner(m), WinnerApply(r, m))
  {
  }

  lemma MoveCoverMoves(cfg: Config, r: Req, m: Move)
    requires ReqInv(cfg, r) && CanMove(cfg, r, m)
    ensures CoverMoves(r, m, Apply(r, m))
  {
    hide SenderApply, WinnerApply, SenderCan, WinnerCan;
    match m
    case BySender(sm) => SenderCoverMoves(cfg, r, sm);
    case ByRival(rm) =>
    case ByWinner(wm) => WinnerCoverMoves(cfg, r, wm);
  }

  lemma StepKeepsCover(s: State, i: nat, m: Move)
    requires Inv(s) && CanStep(s, i, m) && DistinctTags(s) && CoverInv(s)
    requires Linked(StepNext(s, i, m))
    ensures CoverInv(StepNext(s, i, m))
  {
    hide ReqInv, CanMove, Apply, MapInv, MapAfter, CounterChange;
    MoveCoverMoves(s.cfg, s.reqs[i], m);
    var t := StepNext(s, i, m);
    forall j | j in t.reqs && NeedsCover(t, j) ensures Covered(t, j) {
      if s.reqs[j].conn != s.reqs[i].conn {
        assert NeedsCover(s, j);
      } else if j != i {
        assert s.reqs[j].id != s.reqs[i].id;
        assert NeedsCover(s, j);
      } else if m == BySender(CheckedActive(true)) {
        assert ConnInv(s, s.reqs[i].conn);
        assert NeedsCover(s, i);
      }
    }
  }

  lemma ClaimResolves(r: Req)
    ensures var r' := Apply(r, ByRival(CleanupClaims));
      r'.resolved && r'.conn == r.conn && r'.id == r.id && r'.indexed == r.indexed && r'.passed == r.passed
  {
  }

  lemma WalkKeepsCover(s: State, c: nat, w: Walk)
    requires Inv(s) && CanWalk(s, c, w) && DistinctTags(s) && CoverInv(s)
    requires Linked(WalkNext(s, c, w))
    ensures CoverInv(WalkNext(s, c, w))
  {
    hide ReqsInv, MapInv, Apply;
    var t := WalkNext(s, c, w);
    assert ConnInv(s, c);
    if w.ClaimVisited? {
      ClaimResolves(s.reqs[s.conns[c].cleanup.value]);
    } else if w.Visit? {
      assert GoodEntry(s, c, w.entry.0, w.entry.1);
    }
    forall j | j in t.reqs && NeedsCover(t, j) ensures Covered(t, j) {
      assert NeedsCover(s, j);
    }
  }

  lemma {:induction false} RunKeepsCover(s: State, actions: seq<Action>, t: State)
    requires Inv(s) && Reaches(s, actions, t) && DistinctTags(s) && CoverInv(s)
    ensures Linked(t) && CoverInv(t)
    decreases |actions|
  {
    hide ReqInv, MapInv, ConnsInv, CoverInv, CanStep, CanWalk, StepNext, WalkNext;
    if actions != [] {
      var u := Next(s, actions[0]);
      NextKeepsInv(s, actions[0]);
      match actions[0] {
        case OnRequest(i, m) => StepKeepsCover(s, i, m);
        case OnConn(c, w) => WalkKeepsCover(s, c, w);
      }
      RunKeepsCover(u, actions[1..], t);
    }
  }

  /** The sender has yet to act on its connection being closed, and will invalidate the request. */
  predicate HeldBySender(r: Req) {
    r.sender.Index? || r.sender.CheckActive? || r.sender.Invalidate?
  }

  /**
   * If no two requests of a connection share an ID then in every run an unresolved registered
   * request of a closed connection is still to be visited, or held by a sender about to
   * invalidate it.
   */
  lemma UnresolvedIsCoveredOrHeld(s: State, actions: seq<Action>, t: State, i: nat)
    requires Init(s) && DistinctTags(s) && Reaches(s, actions, t)
    requires i in t.reqs && t.reqs[i].registered && !t.reqs[i].resolved
    requires Linked(t) && !t.conns[t.reqs[i].conn].active
    ensures Covered(t, i) || HeldBySender(t.reqs[i])
  {
    hide Reaches, MapInv, ConnsInv;
    InitInv(s);
    ReachableInv(s, actions, t);
    RunKeepsCover(s, actions, t);
    assert ClaimInv(t.cfg, t.reqs[i]);
    if t.reqs[i].passed {
      assert NeedsCover(t, i);
    }
  }

  /** It passed the check that its connection is open, yet outlived the finished cleanup of that connection. */
  predicate Orphaned(t: State, i: nat)
    requires Linked(t)
  {
    i in t.reqs && t.reqs[i].passed && !t.reqs[i].resolved && t.conns[t.reqs[i].conn].cleanup.Done?
  }

  /** No run from `s` orphans a request. */
  ghost predicate OrphanFree(s: State) {
    forall actions, t, i :: Reaches(s, actions, t) && Linked(t) ==> !Orphaned(t, i)
  }

  lemma CoverLeavesNoOrphan(t: State, i: nat)
    requires Inv(t) && CoverInv(t)
    ensures !Orphaned(t, i)
  {
    hide StatusInv, WriteInv, TimerInv, MessageInv, RecallInv, MapInv, ConnsInv;
    if i in t.reqs {
      assert ClaimInv(t.cfg, t.reqs[i]);
      assert t.reqs[i].passed ==> t.reqs[i].indexed;
    }
  }

  lemma DistinctTagsAreOrphanFree(s: State)
    requires Init(s) && DistinctTags(s)
    ensures OrphanFree(s)
  {
    hide Reaches, ReqsInv, MapInv, ConnsInv, DistinctTags, Init, CoverInv, Orphaned;
    forall actions, t, i | Reaches(s, actions, t) && Linked(t) ensures !Orphaned(t, i) {
      InitCovers(s);
      ReachableInv(s, actions, t);
      RunKeepsCover(s, actions, t);
      CoverLeavesNoOrphan(t, i);
    }
  }

  lemma InitCovers(s: State)
    requires Init(s)
    ensures Inv(s) && CoverInv(s)
  {
  }

  // ---------------------------------------------------------------- nothing starts without a usable configuration

  predicate DormantReq(r: Req) {
    !r.registered && !r.passed && !r.clickable && r.timer.Unset? && r.shown.NoMessage? && (r.sender.Start? || r.sender.Returned?)
  }

  ghost predicate Dormant(s: State) {
    && !Usable(s.cfg)
    && forall i :: i in s.reqs ==> DormantReq(s.reqs[i])
  }

  lemma SenderStaysDormant(cfg: Config, r: Req, m: SenderMove)
    requires !Usable(cfg) && SenderCan(cfg, r, m) && DormantReq(r)
    ensures DormantReq(SenderApply(r, m))
  {
    assert m.Begin?;
  }

  lemma WinnerStaysDormant(r: Req, m: WinnerMove)
    requires WinnerCan(r, m) && DormantReq(r)
    ensures DormantReq(WinnerApply(r, m))
  {
  }

  lemma MoveStaysDormant(cfg: Config, r: Req, m: Move)
    requires !Usable(cfg) && CanMove(cfg, r, m) && DormantReq(r)
    ensures DormantReq(Apply(r, m))
  {
    hide SenderApply, WinnerApply, SenderCan, WinnerCan, Usable;
    match m
    case BySender(sm) => SenderStaysDormant(cfg, r, sm);
    case ByRival(rm) =>
    case ByWinner(wm) => WinnerStaysDormant(r, wm);
  }

  lemma NextStaysDormant(s: State, a: Action)
    requires Linked(s) && Dormant(s) && Enabled(s, a)
    ensures Dormant(Next(s, a))
  {
    hide CanMove, Apply;
    match a
    case OnRequest(i, m) => MoveStaysDormant(s.cfg, s.reqs[i], m);
    case OnConn(c, w) =>
      if w.ClaimVisited? {
        var i := s.conns[c].cleanup.value;
        assert CanMove(s.cfg, s.reqs[i], ByRival(CleanupClaims)) by { MayBeClaimed(s.cfg, s.reqs[i]); }
        MoveStaysDormant(s.cfg, s.reqs[i], ByRival(CleanupClaims));
      }
  }

  lemma MayBeClaimed(cfg: Config, r: Req)
    ensures CanMove(cfg, r, ByRival(CleanupClaims))
  {
  }

  lemma {:induction false} RunStaysDormant(s: State, actions: seq<Action>, t: State)
    requires Dormant(s) && Reaches(s, actions, t)
    ensures Dormant(t)
    decreases |actions|
  {
    hide Dormant;
    if actions != [] {
      NextStaysDormant(s, actions[0]);
      RunStaysDormant(Next(s, actions[0]), actions[1..], t);
    }
  }

  /** Switched off, without a client or without a group, the plugin registers no request and shows no message. */
  lemma NothingWithoutConfiguration(s: State, actions: seq<Action>, t: State, i: nat)
    requires Init(s) && Reaches(s, actions, t) && i in t.reqs
    requires !s.cfg.enabled || !s.cfg.hasClient || s.cfg.groupId == ""
    ensures !t.reqs[i].registered && t.reqs[i].shown.NoMessage?
  {
    hide Reaches;
    RunStaysDormant(s, actions, t);
  }

  // ---------------------------------------------------------------- the run that orphans a request

  /** Its message could not be sent, so its own sender invalidates it; it has left the global map only. */
  function HalfCleanedReq(conn: nat, id: string): Req {
    PassedReq(conn, id).(sender := AwaitOwnWin, clickable := true, resolved := true, winner := ByInvalidation,
                         wins := 1, winnerPc := Unindex, status := Invalidated)
  }

  lemma FailToSend(s: State, actions: seq<Action>, t: State, i: nat, v: View) returns (more: seq<Action>, w: View)
    requires Linked(t) && i in t.reqs && t.reqs[i].conn == v.r.conn && v.r == PassedReq(v.r.conn, v.r.id)
    requires Reaches(s, actions, With(t, i, v))
    ensures w == View(HalfCleanedReq(v.r.conn, v.r.id), v.conn, v.pending - {v.r.id}, v.counter)
    ensures Reaches(s, more, With(t, i, w))
  {
    hide Reaches, With, Linked, RivalCan, RivalApply;
    more, w := Advance(s, actions, t, i, v, BySender(Built(true)));
    more, w := Advance(s, more, t, i, w, BySender(SendDone(false, false)));
    more, w := Advance(s, more, t, i, w, BySender(SenderClaims));
    more, w := HalfClean(s, more, t, i, w);
  }

  function ClaimedReq(conn: nat, id: string): Req {
    HalfCleanedReq(conn, id).(winnerPc := SetStatus, status := Pending)
  }

  lemma HalfClean(s: State, actions: seq<Action>, t: State, i: nat, v: View) returns (more: seq<Action>, w: View)
    requires Linked(t) && i in t.reqs && t.reqs[i].conn == v.r.conn && v.r == ClaimedReq(v.r.conn, v.r.id)
    requires Reaches(s, actions, With(t, i, v))
    ensures w == View(HalfCleanedReq(v.r.conn, v.r.id), v.conn, v.pending - {v.r.id}, v.counter)
    ensures Reaches(s, more, With(t, i, w))
  {
    hide Reaches, With, Linked, RivalCan, RivalApply;
    more, w := Advance(s, actions, t, i, v, ByWinner(StatusSet));
    more, w := Advance(s, more, t, i, w, ByWinner(TimerStopped));
    more, w := Advance(s, more, t, i, w, ByWinner(Unregistered));
  }

  /** A connection whose map has been emptied is closed and cleaned without visiting anything. */
  lemma CloseEmpty(s: State, actions: seq<Action>, t: State, c: nat) returns (more: seq<Action>, u: State)
    requires Linked(t) && c in t.conns && t.conns[c].pending == map[] && t.conns[c].cleanup.NotStarted?
    requires Reaches(s, actions, t)
    ensures Reaches(s, more, u) && u == t.(conns := u.conns) && Linked(u) && c in u.conns && u.conns[c].cleanup.Done?
  {
    hide Reaches;
    Then(s, actions, t, OnConn(c, Close));
    more, u := actions + [OnConn(c, Close)], WalkNext(t, c, Close);
    Then(s, more, u, OnConn(c, BeginRange));
    more, u := more + [OnConn(c, BeginRange)], WalkNext(u, c, BeginRange);
    Then(s, more, u, OnConn(c, EndRange));
    more, u := more + [OnConn(c, EndRange)], WalkNext(u, c, EndRange);
  }

  /**
   * Requests `i` and `j` share connection and ID. While `i` is between its two deletions `j`
   * enters both maps; the second deletion of `i` then drops the entry of `j`, and the
   * cleanup of the closed connection never meets `j`.
   */
  lemma SharedTagOrphans(s: State, i: nat, j: nat)
    requires Init(s) && Usable(s.cfg) && i in s.reqs && j in s.reqs && i != j
    requires s.reqs[i].conn == s.reqs[j].conn && s.reqs[i].id == s.reqs[j].id
    ensures !OrphanFree(s)
  {
    hide Reaches, Usable;
    var c, id := s.reqs[i].conn, s.reqs[i].id;
    assert Reaches(s, [], s) by { NoAction(s); }
    var actions, v := Admit(s, [], s, i, ViewOf(s, i));
    actions, v := FailToSend(s, actions, s, i, v);
    var t := With(s, i, v);
    assert v.pending == map[];
    var w: View;
    actions, w := Admit(s, actions, t, j, ViewOf(t, j));
    t := With(t, j, w);
    v := ViewOf(t, i);
    assert t == With(t, i, v);
    actions, v := Advance(s, actions, t, i, v, ByWinner(Unindexed));
    t := With(t, i, v);
    assert t.conns[c].pending == map[];
    actions, t := CloseEmpty(s, actions, t, c);
    assert Orphaned(t, j);
  }

  lemma UnusableIsOrphanFree(s: State)
    requires Init(s) && !Usable(s.cfg)
    ensures OrphanFree(s)
  {
    hide Reaches;
    forall actions, t, i | Reaches(s, actions, t) && Linked(t) ensures !Orphaned(t, i) {
      RunStaysDormant(s, actions, t);
    }
  }

  /**
   * Closing connections orphans no request, in any interleaving, exactly when the plugin admits
   * nothing or no two requests of a connection share an ID.
   */
  lemma OrphanFreeExactlyWhenTagsDistinct(s: State)
    requires Init(s)
    ensures OrphanFree(s) <==> !Usable(s.cfg) || DistinctTags(s)
  {
    hide Reaches, Usable, OrphanFree, Init;
    if !Usable(s.cfg) {
      UnusableIsOrphanFree(s);
    } else if DistinctTags(s) {
      DistinctTagsAreOrphanFree(s);
    } else {
      var i, j :| i in s.reqs && j in s.reqs && s.reqs[i].conn == s.reqs[j].conn && s.reqs[i].id == s.reqs[j].id && i != j;
      SharedTagOrphans(s, i, j);
    }
  }
}
