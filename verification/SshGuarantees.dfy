/** What holds of every request in every run of the approval protocol. */
module SshGuarantees {
  import opened SshRequest
  import opened SshApproval

  /** At most one winner; at most one response, the winning click's decision, and only if a click won. */
  ghost predicate AnsweredOnce(cfg: Config, r: Req) {
    && r.wins <= 1 && (r.resolved <==> r.wins == 1)
    && |r.writes| <= 1
    && (r.writes != [] ==> r.winner.ByCallback? && Authorized(cfg, r.winner.click) && r.writes == [r.winner.approved])
    && (r.status.TimedOut? ==> r.winner.ByTimer? && r.writes == [])
    && (r.status.Invalidated? ==> r.winner.ByInvalidation? && r.writes == [])
    && (r.status.Delivered? ==> r.winner.ByCallback? && r.writes == [r.winner.approved])
  }

  lemma ReqInvAnswersOnce(cfg: Config, r: Req)
    requires ReqInv(cfg, r)
    ensures AnsweredOnce(cfg, r)
  {
  }

  /**
   * In every run at most one of the callback, the timer and the invalidations takes effect on a
   * request, and at most one response is handed to the IPC encoder: the decision of an authorised
   * click that won, never anything after a timeout or an invalidation.
   */
  lemma SingleWinnerAtMostOneAnswer(s: State, actions: seq<Action>, t: State)
    requires Init(s) && Reaches(s, actions, t)
    ensures forall i :: i in t.reqs ==> AnsweredOnce(t.cfg, t.reqs[i])
  {
    hide Init, Reaches, ReqInv, AnsweredOnce, MapInv, ConnsInv;
    ReachableInv(s, actions, t);
    forall i | i in t.reqs ensures AnsweredOnce(t.cfg, t.reqs[i]) {
      ReqInvAnswersOnce(t.cfg, t.reqs[i]);
    }
  }

  lemma SenderKeepsFinalStatus(r: Req, m: SenderMove)
    ensures SenderApply(r, m).status == r.status
  {
    match m
    case Begin(_) =>
    case Reserved(_) =>
    case RolledBack =>
    case Registered(_) =>
    case Indexed =>
    case CheckedActive(_) =>
    case Built(_) =>
    case SendDone(_, _) =>
    case Published =>
    case Rechecked =>
    case Armed =>
    case RecalledBySender =>
    case SenderClaims =>
    case SenderReturns =>
  }

  lemma WinnerKeepsFinalStatus(r: Req, m: WinnerMove)
    requires StatusInv(r) && WinnerCan(r, m) && !r.status.Pending?
    ensures WinnerApply(r, m).status == r.status
  {
    match m
    case StatusSet =>
    case TimerStopped =>
    case Unregistered =>
    case Unindexed =>
    case Released =>
    case TestedActive(_) =>
    case TestedLocked(_) =>
    case DeadlineSet(_) =>
    case Encoded(_) =>
    case Concluded =>
    case MessageRead =>
    case Withdrawn =>
  }

  lemma MoveKeepsFinalStatus(cfg: Config, r: Req, m: Move)
    requires ReqInv(cfg, r) && CanMove(cfg, r, m) && !r.status.Pending?
    ensures Apply(r, m).status == r.status
  {
    hide SenderApply, WinnerApply, SenderCan, WinnerCan, StatusInv, ClaimInv, WriteInv, TimerInv, MessageInv, RecallInv;
    match m
    case BySender(sm) => SenderKeepsFinalStatus(r, sm);
    case ByRival(rm) =>
    case ByWinner(wm) => WinnerKeepsFinalStatus(r, wm);
  }

  lemma NextKeepsFinalStatus(s: State, a: Action, i: nat)
    requires Inv(s) && Enabled(s, a) && i in s.reqs && !s.reqs[i].status.Pending?
    ensures i in Next(s, a).reqs && Next(s, a).reqs[i].status == s.reqs[i].status
  {
    hide Apply, ReqInv;
    match a
    case OnRequest(j, m) =>
      if j == i { MoveKeepsFinalStatus(s.cfg, s.reqs[i], m); }
    case OnConn(c, w) =>
      if w.ClaimVisited? && s.conns[c].cleanup.value == i {
        MoveKeepsFinalStatus(s.cfg, s.reqs[i], ByRival(CleanupClaims));
      }
  }

  /** A status that has left Pending never changes again, along any continuation of any run. */
  lemma {:induction false} StatusIsFinal(s: State, actions: seq<Action>, t: State, i: nat)
    requires Inv(s) && Reaches(s, actions, t) && i in s.reqs && !s.reqs[i].status.Pending?
    ensures i in t.reqs && t.reqs[i].status == s.reqs[i].status
    decreases |actions|
  {
    if actions != [] {
      NextKeepsInv(s, actions[0]);
      NextKeepsFinalStatus(s, actions[0], i);
      StatusIsFinal(Next(s, actions[0]), actions[1..], t, i);
    }
  }

  /** Neither the sender nor the winner of the request has a step left. */
  predicate Settled(r: Req) {
    r.sender.Returned? && r.winnerPc.Finished?
  }

  /**
   * A settled request that ended without delivering, and whose message is in the group, has had
   * that message recalled: by the winner if it saw the message, by the sender otherwise.
   */
  lemma NoStaleMessage(s: State, actions: seq<Action>, t: State, i: nat)
    requires Init(s) && Reaches(s, actions, t) && i in t.reqs
    requires Settled(t.reqs[i]) && Ended(t.reqs[i].status) && t.reqs[i].shown == Message(true)
    ensures t.reqs[i].recalls >= 1
  {
    hide Init, Reaches;
    ReachableInv(s, actions, t);
    assert ReqInv(t.cfg, t.reqs[i]);
  }

  /**
   * Once the winner has been through its timer stop no timer of the request runs, and none can
   * be started any more, whichever of the two entered the critical section first.
   */
  lemma NoLiveTimer(s: State, actions: seq<Action>, t: State, i: nat)
    requires Init(s) && Reaches(s, actions, t) && i in t.reqs
    requires t.reqs[i].resolved && !BeforeTimerStop(t.reqs[i].winnerPc)
    ensures !t.reqs[i].timer.Running? && !t.reqs[i].sender.Arm?
  {
    hide Init, Reaches;
    ReachableInv(s, actions, t);
    assert ReqInv(t.cfg, t.reqs[i]);
  }

  /** A request that nobody has won and whose sender is done waits on a timer that runs or is just going off. */
  lemma WaitingRequestHasTimer(s: State, actions: seq<Action>, t: State, i: nat)
    requires Init(s) && Reaches(s, actions, t) && i in t.reqs
    requires t.reqs[i].registered && !t.reqs[i].resolved && t.reqs[i].sender.Returned?
    ensures t.reqs[i].timer.Running? || t.reqs[i].timer.Firing?
  {
    hide Init, Reaches;
    ReachableInv(s, actions, t);
    assert ReqInv(t.cfg, t.reqs[i]);
  }

  /** Only the message of a request that somebody has won is recalled, and only one that is up with an id. */
  lemma RecallsOnlyWhatIsShown(s: State, actions: seq<Action>, t: State, i: nat)
    requires Init(s) && Reaches(s, actions, t) && i in t.reqs && t.reqs[i].recalls > 0
    ensures t.reqs[i].resolved && t.reqs[i].shown == Message(true)
  {
    hide Init, Reaches;
    ReachableInv(s, actions, t);
    assert ReqInv(t.cfg, t.reqs[i]);
  }

  /** A finished cleanup has left no entry behind that was in its connection's map all along since it began. */
  lemma CleanupLeavesNoneOfItsKeys(s: State, actions: seq<Action>, t: State, c: nat)
    requires Init(s) && Reaches(s, actions, t) && c in t.conns && t.conns[c].cleanup.Done?
    ensures t.conns[c].required == {}
  {
    hide Init, Reaches;
    ReachableInv(s, actions, t);
    assert ConnInv(t, c);
  }

  /**
   * When a winner is about to delete its key from the global map the entry there is its own,
   * although the deletion names only the key; every other request keeps its entry.
   */
  lemma UnregisterDropsOwnEntry(s: State, actions: seq<Action>, t: State, i: nat)
    requires Init(s) && Reaches(s, actions, t) && i in t.reqs && t.reqs[i].winnerPc.Unregister?
    ensures t.reqs[i].id in t.pendingMap && t.pendingMap[t.reqs[i].id] == i
    ensures var after := MapAfter(t.pendingMap, t.reqs[i].id, i, ByWinner(Unregistered));
      && t.reqs[i].id !in after
      && forall j :: j in t.reqs && j != i && InMap(t.reqs[j]) ==> t.reqs[j].id in after && after[t.reqs[j].id] == j
  {
    hide Init, Reaches, ReqInv, ConnsInv, InMap, EntriesOwned;
    ReachableInv(s, actions, t);
    AboutToLeave(t.cfg, t.reqs[i]);
  }

  lemma AboutToLeave(cfg: Config, r: Req)
    requires ReqInv(cfg, r) && r.winnerPc.Unregister?
    ensures InMap(r)
  {
  }
}
