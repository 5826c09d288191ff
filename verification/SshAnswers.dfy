/**
 * What is answered to whom, said of the actions of a run: who claimed a request first, what that
 * claim was, and which tests its winner passed.
 */
module SshAnswers {
  import opened Options
  import opened SshRequest
  import opened SshApproval

  // ---------------------------------------------------------------- who may answer

  /** A click counts exactly if it comes from the configured group and from a listed user, or without a list from a role not below the admins. */
  lemma ClickCountsExactlyWhen(cfg: Config, r: Req, approved: bool, click: Click)
    ensures RivalCan(cfg, r, ClickClaims(approved, click)) <==>
      && r.clickable && click.groupId == cfg.groupId && cfg.groupId != ""
      && (cfg.allowedUsers != [] ==> click.userId in cfg.allowedUsers)
      && (cfg.allowedUsers == [] ==> click.role in {"", "admin", "owner"})
  {
  }

  // ---------------------------------------------------------------- the first claim

  /** The action tries to win the request. */
  predicate Claims(s: State, a: Action, i: nat) {
    match a
    case OnRequest(j, BySender(SenderClaims)) => j == i
    case OnRequest(j, ByRival(TimerClaims)) => j == i
    case OnRequest(j, ByRival(ClickClaims(_, _))) => j == i
    case OnConn(c, ClaimVisited) => c in s.conns && s.conns[c].cleanup.Claiming? && s.conns[c].cleanup.value == i
    case _ => false
  }

  /** The first action of a run that tries to win the request. */
  ghost function FirstClaim(s: State, actions: seq<Action>, i: nat): Option<Action>
    decreases |actions|
  {
    if actions == [] || !Linked(s) || !Enabled(s, actions[0]) then None
    else if Claims(s, actions[0], i) then Some(actions[0])
    else FirstClaim(Next(s, actions[0]), actions[1..], i)
  }

  predicate WonBy(winner: Winner, a: Action) {
    match a
    case OnRequest(_, ByRival(ClickClaims(approved, click))) => winner == ByCallback(approved, click)
    case OnRequest(_, ByRival(TimerClaims)) => winner == ByTimer
    case _ => winner == ByInvalidation
  }

  lemma SenderWins(cfg: Config, r: Req, m: SenderMove)
    ensures var after := SenderApply(r, m);
      if r.resolved || m != SenderClaims then after.resolved == r.resolved && after.winner == r.winner
      else after.resolved && after.winner == ByInvalidation
  {
    match m
    case Begin(_) =>
    case Reserved(_) =>
    case RolledBack =>
    case Registered(_) =>
    case Indexed =>
    case CheckedActive(_) =>
    case Built(_) =>
    case SendDone(_, _) =>
    case Published =>
    case Rechecked =>
    case Armed =>
    case RecalledBySender =>
    case SenderClaims =>
    case SenderReturns =>
  }

  lemma WinnerWinsNothing(r: Req, m: WinnerMove)
    ensures WinnerApply(r, m).resolved == r.resolved && WinnerApply(r, m).winner == r.winner
  {
    match m
    case StatusSet =>
    case TimerStopped =>
    case Unregistered =>
    case Unindexed =>
    case Released =>
    case TestedActive(_) =>
    case TestedLocked(_) =>
    case DeadlineSet(_) =>
    case Encoded(_) =>
    case Concluded =>
    case MessageRead =>
    case Withdrawn =>
  }

  lemma MoveClaims(cfg: Config, r: Req, m: Move, i: nat)
    requires CanMove(cfg, r, m) && !r.resolved
    ensures Apply(r, m).resolved <==> m == BySender(SenderClaims) || (m.ByRival? && !m.rm.TimerFires?)
    ensures Apply(r, m).resolved ==> WonBy(Apply(r, m).winner, OnRequest(i, m))
  {
    hide SenderApply, WinnerApply, SenderCan, WinnerCan;
    match m
    case BySender(sm) => SenderWins(cfg, r, sm);
    case ByRival(rm) =>
    case ByWinner(wm) => WinnerWinsNothing(r, wm);
  }

  lemma MoveKeepsWinner(cfg: Config, r: Req, m: Move)
    requires CanMove(cfg, r, m) && r.resolved
    ensures Apply(r, m).resolved && Apply(r, m).winner == r.winner
  {
    hide SenderApply, WinnerApply, SenderCan, WinnerCan;
    match m
    case BySender(sm) => SenderWins(cfg, r, sm);
    case ByRival(rm) =>
    case ByWinner(wm) => WinnerWinsNothing(r, wm);
  }

  lemma NextClaims(s: State, a: Action, i: nat)
    requires Inv(s) && Enabled(s, a) && i in s.reqs && !s.reqs[i].resolved
    ensures i in Next(s, a).reqs && (Next(s, a).reqs[i].resolved <==> Claims(s, a, i))
    ensures Next(s, a).reqs[i].resolved ==> WonBy(Next(s, a).reqs[i].winner, a)
  {
    hide Apply, CanMove, WonBy, ReqInv;
    match a
    case OnRequest(j, m) =>
      if j == i {
        MoveClaims(s.cfg, s.reqs[i], m, i);
      }
    case OnConn(c, w) =>
      CleanupClaim(s.cfg, s.reqs[i], a);
  }

  lemma CleanupClaim(cfg: Config, r: Req, a: Action)
    requires a.OnConn? && !r.resolved
    ensures var after := Apply(r, ByRival(CleanupClaims)); after.resolved && WonBy(after.winner, a)
  {
  }

  lemma NextKeepsWinner(s: State, a: Action, i: nat)
    requires Inv(s) && Enabled(s, a) && i in s.reqs && s.reqs[i].resolved
    ensures i in Next(s, a).reqs && Next(s, a).reqs[i].resolved && Next(s, a).reqs[i].winner == s.reqs[i].winner
  {
    hide Apply, CanMove, ReqInv;
    match a
    case OnRequest(j, m) =>
      if j == i {
        MoveKeepsWinner(s.cfg, s.reqs[i], m);
      }
    case OnConn(c, w) =>
      assert CanMove(s.cfg, s.reqs[i], ByRival(CleanupClaims)) by { CleanupMay(s.cfg, s.reqs[i]); }
      MoveKeepsWinner(s.cfg, s.reqs[i], ByRival(CleanupClaims));
  }

  lemma CleanupMay(cfg: Config, r: Req)
    ensures CanMove(cfg, r, ByRival(CleanupClaims))
  {
  }

  lemma {:induction false} RunKeepsWinner(s: State, actions: seq<Action>, t: State, i: nat)
    requires Inv(s) && Reaches(s, actions, t) && i in s.reqs && s.reqs[i].resolved
    ensures i in t.reqs && t.reqs[i].resolved && t.reqs[i].winner == s.reqs[i].winner
    decreases |actions|
  {
    hide Inv, Enabled, Next;
    if actions != [] {
      NextKeepsInv(s, actions[0]);
      NextKeepsWinner(s, actions[0], i);
      RunKeepsWinner(Next(s, actions[0]), actions[1..], t, i);
    }
  }

  /** A request is won by whoever claimed it first. */
  lemma {:induction false} FirstClaimWins(s: State, actions: seq<Action>, t: State, i: nat)
    requires Inv(s) && Reaches(s, actions, t) && i in s.reqs && !s.reqs[i].resolved
    ensures i in t.reqs && (t.reqs[i].resolved <==> FirstClaim(s, actions, i).Some?)
    ensures t.reqs[i].resolved ==> WonBy(t.reqs[i].winner, FirstClaim(s, actions, i).value)
    decreases |actions|
  {
    hide Inv, Enabled, Next, Claims, WonBy;
    if actions != [] {
      assert Linked(s);
      NextKeepsInv(s, actions[0]);
      NextClaims(s, actions[0], i);
      if Claims(s, actions[0], i) {
        RunKeepsWinner(Next(s, actions[0]), actions[1..], t, i);
      } else {
        FirstClaimWins(Next(s, actions[0]), actions[1..], t, i);
      }
    }
  }

  /**
   * A response is the decision of the first claim on its request, and that claim is a click of
   * somebody who may answer: from the configured group, and listed or not below an admin.
   */
  lemma AnswerIsTheFirstClick(s: State, actions: seq<Action>, t: State, i: nat) returns (approved: bool, click: Click)
    requires Init(s) && Reaches(s, actions, t) && i in t.reqs && t.reqs[i].writes != []
    ensures FirstClaim(s, actions, i) == Some(OnRequest(i, ByRival(ClickClaims(approved, click))))
    ensures t.reqs[i].writes == [approved]
    ensures click.groupId == t.cfg.groupId && click.groupId != ""
    ensures if t.cfg.allowedUsers != [] then click.userId in t.cfg.allowedUsers else click.role in {"", "admin", "owner"}
  {
    WinnerIsFirstClaim(s, actions, t, i);
    FirstClaimIsOn(s, actions, i);
    hide Reaches, Init, FirstClaim, ReqInv, Inv;
    var r := t.reqs[i];
    AnswerOfWinner(t.cfg, r);
    approved, click := r.winner.approved, r.winner.click;
  }

  lemma AnswerOfWinner(cfg: Config, r: Req)
    requires ReqInv(cfg, r) && r.writes != []
    ensures r.resolved && r.winner.ByCallback? && r.writes == [r.winner.approved] && Authorized(cfg, r.winner.click)
  {
  }

  lemma StatusOfWinner(cfg: Config, r: Req)
    requires ReqInv(cfg, r)
    ensures r.status.TimedOut? ==> r.resolved && r.winner.ByTimer?
    ensures r.status.Invalidated? ==> r.resolved && r.winner.ByInvalidation?
    ensures r.status.Delivered? || r.status.DeliveryFailed? ==> r.resolved && r.winner.ByCallback?
  {
  }

  lemma WinnerIsFirstClaim(s: State, actions: seq<Action>, t: State, i: nat)
    requires Init(s) && Reaches(s, actions, t) && i in t.reqs
    ensures ReqInv(t.cfg, t.reqs[i])
    ensures t.reqs[i].resolved <==> FirstClaim(s, actions, i).Some?
    ensures t.reqs[i].resolved ==> WonBy(t.reqs[i].winner, FirstClaim(s, actions, i).value)
  {
    hide Reaches, FirstClaim, WonBy, ReqInv;
    InitInv(s);
    ReachableInv(s, actions, t);
    RunKeepsReqs(s, actions, t);
    FirstClaimWins(s, actions, t, i);
  }

  /** Likewise a timed-out request was claimed by its timer first, and an invalidated one by its sender or a cleanup. */
  lemma StatusTellsTheFirstClaim(s: State, actions: seq<Action>, t: State, i: nat)
    requires Init(s) && Reaches(s, actions, t) && i in t.reqs
    ensures t.reqs[i].status.TimedOut? ==> FirstClaim(s, actions, i) == Some(OnRequest(i, ByRival(TimerClaims)))
    ensures t.reqs[i].status.Invalidated? ==>
      && FirstClaim(s, actions, i).Some?
      && (FirstClaim(s, actions, i).value == OnRequest(i, BySender(SenderClaims)) || FirstClaim(s, actions, i).value.OnConn?)
    ensures t.reqs[i].status.Delivered? || t.reqs[i].status.DeliveryFailed? ==>
      exists approved, click :: FirstClaim(s, actions, i) == Some(OnRequest(i, ByRival(ClickClaims(approved, click))))
  {
    WinnerIsFirstClaim(s, actions, t, i);
    FirstClaimIsOn(s, actions, i);
    hide Reaches, Init, FirstClaim, ReqInv, Inv;
    StatusOfWinner(t.cfg, t.reqs[i]);
  }

  lemma {:induction false} FirstClaimIsOn(s: State, actions: seq<Action>, i: nat)
    ensures FirstClaim(s, actions, i).Some? ==>
      match FirstClaim(s, actions, i).value
      case OnRequest(j, m) => j == i && (m == BySender(SenderClaims) || m == ByRival(TimerClaims) || (m.ByRival? && m.rm.ClickClaims?))
      case OnConn(_, w) => w.ClaimVisited?
    decreases |actions|
  {
    hide Enabled, Next, Linked;
    if actions != [] && Linked(s) && Enabled(s, actions[0]) && !Claims(s, actions[0], i) {
      FirstClaimIsOn(Next(s, actions[0]), actions[1..], i);
    }
  }

  lemma {:induction false} RunKeepsReqs(s: State, actions: seq<Action>, t: State)
    requires Inv(s) && Reaches(s, actions, t)
    ensures t.reqs.Keys == s.reqs.Keys && t.cfg == s.cfg
    decreases |actions|
  {
    hide Inv, Enabled, Next;
    if actions != [] {
      NextKeepsInv(s, actions[0]);
      RunKeepsReqs(Next(s, actions[0]), actions[1..], t);
    }
  }

  // ---------------------------------------------------------------- the winner's tests

  predicate IsTest(m: WinnerMove) {
    m.TestedActive? || m.TestedLocked? || m.DeadlineSet? || m.Encoded?
  }

  function TestIn(m: Move): seq<WinnerMove> {
    if m.ByWinner? && IsTest(m.wm) then [m.wm] else []
  }

  /** The tests the winner of the request has taken, in order, with their outcomes. */
  function TestsTaken(actions: seq<Action>, i: nat): seq<WinnerMove> {
    if actions == [] then []
    else
      var a := actions[|actions| - 1];
      TestsTaken(actions[..|actions| - 1], i) + if a.OnRequest? && a.i == i then TestIn(a.m) else []
  }

  /** The connection is open, is still open under its lock, takes the deadline and takes the response. */
  predicate AllPassed(tests: seq<WinnerMove>) {
    tests == [TestedActive(true), TestedLocked(true), DeadlineSet(true), Encoded(true)]
  }

  /** The last test failed, and those before it passed. */
  predicate OneFailed(tests: seq<WinnerMove>) {
    || tests == [TestedActive(false)]
    || tests == [TestedActive(true), TestedLocked(false)]
    || tests == [TestedActive(true), TestedLocked(true), DeadlineSet(false)]
    || tests == [TestedActive(true), TestedLocked(true), DeadlineSet(true), Encoded(false)]
  }

  predicate TestsInv(tests: seq<WinnerMove>, r: Req) {
    (r.writes != [] <==> |tests| == 4) && TestsAt(tests, r)
  }

  predicate TestsAt(tests: seq<WinnerMove>, r: Req) {
    match r.winnerPc
    case TestLocked => tests == [TestedActive(true)]
    case SetDeadline => tests == [TestedActive(true), TestedLocked(true)]
    case Encode => tests == [TestedActive(true), TestedLocked(true), DeadlineSet(true)]
    case Conclude(ok) => if ok then AllPassed(tests) else OneFailed(tests)
    case _ =>
      if !r.winner.ByCallback? || !AfterConclude(r.winnerPc) then tests == []
      else if r.status.Delivered? then AllPassed(tests)
      else OneFailed(tests)
  }

  lemma SenderKeepsTests(r: Req, m: SenderMove, tests: seq<WinnerMove>)
    requires TestsInv(tests, r) && (r.resolved <==> !r.winnerPc.Idle?)
    ensures TestsInv(tests, SenderApply(r, m))
  {
    hide AllPassed, OneFailed;
    match m
    case Begin(_) =>
    case Reserved(_) =>
    case RolledBack =>
    case Registered(_) =>
    case Indexed =>
    case CheckedActive(_) =>
    case Built(_) =>
    case SendDone(_, _) =>
    case Published =>
    case Rechecked =>
    case Armed =>
    case RecalledBySender =>
    case SenderClaims =>
    case SenderReturns =>
  }

  lemma RivalKeepsTests(r: Req, m: RivalMove, tests: seq<WinnerMove>)
    requires TestsInv(tests, r) && (r.resolved <==> !r.winnerPc.Idle?)
    ensures TestsInv(tests, RivalApply(r, m))
  {
    hide AllPassed, OneFailed;
  }

  lemma WinnerTests(r: Req, m: WinnerMove, tests: seq<WinnerMove>)
    requires TestsInv(tests, r) && WinnerCan(r, m) && IsTest(m)
    ensures TestsInv(tests + [m], WinnerApply(r, m))
  {
    match m
    case TestedActive(_) =>
    case TestedLocked(_) =>
    case DeadlineSet(_) =>
    case Encoded(_) =>
  }

  lemma WinnerTestsNothing(r: Req, m: WinnerMove, tests: seq<WinnerMove>)
    requires TestsInv(tests, r) && StatusInv(r) && WinnerCan(r, m) && !IsTest(m)
    ensures TestsInv(tests, WinnerApply(r, m))
  {
    hide AllPassed, OneFailed;
    match m
    case StatusSet =>
    case TimerStopped =>
    case Unregistered =>
    case Unindexed =>
    case Released =>
    case Concluded =>
    case MessageRead =>
    case Withdrawn =>
  }

  lemma MoveKeepsTests(cfg: Config, r: Req, m: Move, tests: seq<WinnerMove>)
    requires TestsInv(tests, r) && ReqInv(cfg, r) && CanMove(cfg, r, m)
    ensures TestsInv(tests + TestIn(m), Apply(r, m))
  {
    hide SenderApply, RivalApply, WinnerApply, SenderCan, RivalCan, WinnerCan, TestsInv, IsTest;
    hide StatusInv, WriteInv, TimerInv, MessageInv, RecallInv;
    assert tests + [] == tests;
    match m
    case BySender(sm) => SenderKeepsTests(r, sm, tests);
    case ByRival(rm) => RivalKeepsTests(r, rm, tests);
    case ByWinner(wm) =>
      if IsTest(wm) {
        WinnerTests(r, wm, tests);
      } else {
        WinnerTestsNothing(r, wm, tests);
      }
  }

  lemma NextKeepsTests(s: State, a: Action, i: nat, done: seq<Action>)
    requires Inv(s) && Enabled(s, a) && i in s.reqs && TestsInv(TestsTaken(done, i), s.reqs[i])
    ensures i in Next(s, a).reqs && TestsInv(TestsTaken(done + [a], i), Next(s, a).reqs[i])
  {
    hide Apply, CanMove, ReqInv, TestsInv, TestIn;
    var tests := TestsTaken(done, i);
    assert (done + [a])[..|done|] == done && tests + [] == tests;
    match a
    case OnRequest(j, m) =>
      if j == i {
        MoveKeepsTests(s.cfg, s.reqs[i], m, tests);
      }
    case OnConn(c, w) =>
      CleanupMay(s.cfg, s.reqs[i]);
      MoveKeepsTests(s.cfg, s.reqs[i], ByRival(CleanupClaims), tests);
      NoTestIn();
  }

  lemma NoTestIn()
    ensures TestIn(ByRival(CleanupClaims)) == []
  {
  }

  lemma {:induction false} RunKeepsTests(s: State, done: seq<Action>, actions: seq<Action>, t: State, i: nat)
    requires Inv(s) && Reaches(s, actions, t) && i in s.reqs && TestsInv(TestsTaken(done, i), s.reqs[i])
    ensures i in t.reqs && TestsInv(TestsTaken(done + actions, i), t.reqs[i])
    decreases |actions|
  {
    hide Inv, Enabled, Next, TestsInv, TestsTaken;
    if actions == [] {
      assert done + actions == done;
    } else {
      NextKeepsInv(s, actions[0]);
      NextKeepsTests(s, actions[0], i, done);
      RunKeepsTests(Next(s, actions[0]), done + [actions[0]], actions[1..], t, i);
      assert done + [actions[0]] + actions[1..] == done + actions;
    }
  }

  /**
   * Once the winner has concluded, the answer to a click was delivered exactly if all four tests
   * passed, and failed exactly at the first that did not; a response was written exactly if the
   * encoding was reached.
   */
  lemma DeliveredExactlyWhenAllPassed(s: State, actions: seq<Action>, t: State, i: nat)
    requires Init(s) && Reaches(s, actions, t) && i in t.reqs
    requires t.reqs[i].winner.ByCallback? && AfterConclude(t.reqs[i].winnerPc)
    ensures t.reqs[i].status.Delivered? <==>
      TestsTaken(actions, i) == [TestedActive(true), TestedLocked(true), DeadlineSet(true), Encoded(true)]
    ensures t.reqs[i].status.DeliveryFailed? <==> OneFailed(TestsTaken(actions, i))
    ensures t.reqs[i].writes != [] <==> |TestsTaken(actions, i)| == 4
  {
    TestsOfRun(s, actions, t, i);
    hide Reaches, TestsTaken, Init, Inv;
    ConcludedTests(t.cfg, t.reqs[i], TestsTaken(actions, i));
  }

  lemma ConcludedTests(cfg: Config, r: Req, tests: seq<WinnerMove>)
    requires ReqInv(cfg, r) && TestsInv(tests, r) && r.winner.ByCallback? && AfterConclude(r.winnerPc)
    ensures r.status.Delivered? <==> AllPassed(tests)
    ensures r.status.DeliveryFailed? <==> OneFailed(tests)
    ensures r.writes != [] <==> |tests| == 4
  {
    hide ClaimInv, TimerInv, WriteInv, MessageInv, RecallInv;
  }

  lemma TestsOfRun(s: State, actions: seq<Action>, t: State, i: nat)
    requires Init(s) && Reaches(s, actions, t) && i in t.reqs
    ensures ReqInv(t.cfg, t.reqs[i]) && TestsInv(TestsTaken(actions, i), t.reqs[i])
  {
    hide Reaches, TestsTaken, ReqInv;
    InitInv(s);
    ReachableInv(s, actions, t);
    RunKeepsReqs(s, actions, t);
    NoTestsYet(i);
    NoTestsAtFirst(s, i);
    hide Init, TestsInv;
    RunKeepsTests(s, [], actions, t, i);
    assert [] + actions == actions;
  }

  lemma NoTestsAtFirst(s: State, i: nat)
    requires Init(s) && i in s.reqs
    ensures TestsInv([], s.reqs[i])
  {
  }

  lemma NoTestsYet(i: nat)
    ensures TestsTaken([], i) == []
  {
  }

  /** What a test of the connection finds is what the connection then is. */
  lemma TestsSeeTheConnection(s: State, i: nat, m: Move)
    requires Linked(s) && Enabled(s, OnRequest(i, m))
    ensures m == BySender(CheckedActive(true)) || m == ByWinner(TestedActive(true)) || m == ByWinner(TestedLocked(true)) ==>
      s.conns[s.reqs[i].conn].active
    ensures m == BySender(CheckedActive(false)) || m == ByWinner(TestedActive(false)) || m == ByWinner(TestedLocked(false)) ==>
      !s.conns[s.reqs[i].conn].active
  {
    hide CanMove;
  }

  // ---------------------------------------------------------------- the message

  predicate Sent(actions: seq<Action>, i: nat, hasId: bool) {
    OnRequest(i, BySender(SendDone(true, hasId))) in actions
  }

  /** The message the group sees is the one that was sent. */
  predicate ShownInv(actions: seq<Action>, i: nat, shown: Message) {
    && (shown == Message(true) <==> Sent(actions, i, true))
    && (shown == Message(false) <==> Sent(actions, i, false))
  }

  lemma SenderShows(cfg: Config, r: Req, m: SenderMove)
    requires MessageInv(r) && SenderCan(cfg, r, m)
    ensures SenderApply(r, m).shown == if m.SendDone? && m.sent then Message(m.hasId) else r.shown
    ensures m.SendDone? ==> r.shown.NoMessage?
  {
    match m
    case Begin(_) =>
    case Reserved(_) =>
    case RolledBack =>
    case Registered(_) =>
    case Indexed =>
    case CheckedActive(_) =>
    case Built(_) =>
    case SendDone(_, _) =>
    case Published =>
    case Rechecked =>
    case Armed =>
    case RecalledBySender =>
    case SenderClaims =>
    case SenderReturns =>
  }

  lemma WinnerShowsNothing(r: Req, m: WinnerMove)
    ensures WinnerApply(r, m).shown == r.shown
  {
    match m
    case StatusSet =>
    case TimerStopped =>
    case Unregistered =>
    case Unindexed =>
    case Released =>
    case TestedActive(_) =>
    case TestedLocked(_) =>
    case DeadlineSet(_) =>
    case Encoded(_) =>
    case Concluded =>
    case MessageRead =>
    case Withdrawn =>
  }

  lemma MoveShows(cfg: Config, r: Req, m: Move)
    requires ReqInv(cfg, r) && CanMove(cfg, r, m)
    ensures Apply(r, m).shown == if m.BySender? && m.sm.SendDone? && m.sm.sent then Message(m.sm.hasId) else r.shown
    ensures m.BySender? && m.sm.SendDone? ==> r.shown.NoMessage?
  {
    hide SenderApply, WinnerApply, SenderCan, WinnerCan, ClaimInv, StatusInv, WriteInv, TimerInv, MessageInv, RecallInv;
    match m
    case BySender(sm) => SenderShows(cfg, r, sm);
    case ByRival(rm) =>
    case ByWinner(wm) => WinnerShowsNothing(r, wm);
  }

  lemma NextKeepsShown(s: State, a: Action, i: nat, done: seq<Action>)
    requires Inv(s) && Enabled(s, a) && i in s.reqs && ShownInv(done, i, s.reqs[i].shown)
    ensures i in Next(s, a).reqs && ShownInv(done + [a], i, Next(s, a).reqs[i].shown)
  {
    hide Apply, CanMove, ReqInv;
    assert forall b :: b in done + [a] <==> b in done || b == a;
    match a
    case OnRequest(j, m) =>
      if j == i {
        MoveShows(s.cfg, s.reqs[i], m);
      }
    case OnConn(c, w) =>
      CleanupMay(s.cfg, s.reqs[i]);
      MoveShows(s.cfg, s.reqs[i], ByRival(CleanupClaims));
  }

  lemma {:induction false} RunKeepsShown(s: State, done: seq<Action>, actions: seq<Action>, t: State, i: nat)
    requires Inv(s) && Reaches(s, actions, t) && i in s.reqs && ShownInv(done, i, s.reqs[i].shown)
    ensures i in t.reqs && ShownInv(done + actions, i, t.reqs[i].shown)
    decreases |actions|
  {
    hide Inv, Enabled, Next, ShownInv;
    if actions == [] {
      assert done + actions == done;
    } else {
      NextKeepsInv(s, actions[0]);
      NextKeepsShown(s, actions[0], i, done);
      RunKeepsShown(Next(s, actions[0]), done + [actions[0]], actions[1..], t, i);
      assert done + [actions[0]] + actions[1..] == done + actions;
    }
  }

  /** The group sees a message exactly if one was sent, and it has an id exactly if it was sent with one. */
  lemma ShownIsWhatWasSent(s: State, actions: seq<Action>, t: State, i: nat)
    requires Init(s) && Reaches(s, actions, t) && i in t.reqs
    ensures t.reqs[i].shown == Message(true) <==> OnRequest(i, BySender(SendDone(true, true))) in actions
    ensures t.reqs[i].shown == Message(false) <==> OnRequest(i, BySender(SendDone(true, false))) in actions
  {
    hide Reaches, Next;
    InitInv(s);
    RunKeepsReqs(s, actions, t);
    assert s.reqs[i].shown.NoMessage?;
    hide Init, Inv;
    RunKeepsShown(s, [], actions, t, i);
    assert [] + actions == actions;
  }
}
