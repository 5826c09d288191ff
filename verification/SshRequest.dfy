/**
 * One SSH approval request and the threads that race for it: the goroutine that sends its
 * group message, the timer, the button callbacks, the cleanup of its connection, and the
 * goroutine that won the compare-and-swap. Every move is one atomic step of one of them.
 */
module SshRequest {

  datatype Config = Config(enabled: bool, hasClient: bool, groupId: string, allowedUsers: seq<string>)

  /** The checks a request passes before it reserves anything. */
  predicate Usable(cfg: Config) {
    cfg.enabled && cfg.hasClient && cfg.groupId != ""
  }

  /** The part of a button click that the server-side checks look at. */
  datatype Click = Click(groupId: string, userId: string, role: string)

  predicate Authorized(cfg: Config, click: Click) {
    && click.groupId != ""
    && click.groupId == cfg.groupId
    && if |cfg.allowedUsers| > 0
       then click.userId in cfg.allowedUsers
       else click.role == "" || click.role == "admin" || click.role == "owner"
  }

  datatype Status = Pending | Delivered | DeliveryFailed | TimedOut | Invalidated

  datatype Winner = NoOne | ByCallback(approved: bool, click: Click) | ByTimer | ByInvalidation

  /** Where the goroutine that processes the request stands: the name says what it does next. */
  datatype SenderPc =
    | Start
    | Reserve
    | RollBack(overQuota: bool)
    | Register
    | Index
    | CheckActive
    | Build
    | Send
    | Publish
    | Recheck      // holds mu, message stored, about to load resolved
    | Arm          // holds mu, saw an unresolved request, about to start the timer
    | Recall
    | Invalidate
    | AwaitOwnWin  // inside its own invalidate call, which won
    | Returned

  /** Where the goroutine that won the compare-and-swap stands. */
  datatype WinnerPc =
    | Idle
    | SetStatus
    | StopTimer
    | Unregister
    | Unindex
    | Release
    | TestActive
    | TestLocked   // inside SendResponse
    | SetDeadline
    | Encode
    | Conclude(ok: bool)
    | ReadMessage
    | Withdraw
    | Finished

  datatype Timer = Unset | Running | Stopped | Firing | Fired

  datatype Message = NoMessage | Message(hasId: bool)

  datatype Req = Req(
    conn: nat, id: string,
    sender: SenderPc, winnerPc: WinnerPc,
    resolved: bool, winner: Winner, wins: nat,
    status: Status,
    timer: Timer,
    clickable: bool,       // the button callbacks are registered
    shown: Message,        // the message the group sees
    msg: Message,          // the field of the same name, guarded by mu
    recalls: nat,          // recalls issued for the message
    writes: seq<bool>,     // responses handed to the IPC encoder, by their approval flag
    registered: bool,      // has entered the global map
    indexed: bool,         // has entered its connection's map
    passed: bool           // has seen its connection active after entering that map
  )

  function NewReq(conn: nat, id: string): Req {
    Req(conn, id, Start, Idle, false, NoOne, 0, Pending, Unset, false, NoMessage, NoMessage, 0, [], false, false, false)
  }

  /** The sender's critical section spans its load of `resolved`, so it takes several steps. */
  predicate MuHeld(r: Req) {
    r.sender.Recheck? || r.sender.Arm?
  }

  /** Atomic steps of the goroutine that processes the request. */
  datatype SenderMove =
    | Begin(usable: bool)
    | Reserved(admitted: bool)
    | RolledBack
    | Registered(loaded: bool)
    | Indexed
    | CheckedActive(active: bool)
    | Built(ok: bool)
    | SendDone(sent: bool, hasId: bool)
    | Published
    | Rechecked
    | Armed
    | RecalledBySender
    | SenderClaims
    | SenderReturns

  /** Atomic steps of the others that race for the request. */
  datatype RivalMove =
    | TimerFires
    | TimerClaims
    | ClickClaims(approved: bool, click: Click)
    | CleanupClaims

  /** Atomic steps of the goroutine whose compare-and-swap succeeded. */
  datatype WinnerMove =
    | StatusSet
    | TimerStopped
    | Unregistered
    | Unindexed
    | Released
    | TestedActive(active: bool)
    | TestedLocked(active: bool)
    | DeadlineSet(ok: bool)
    | Encoded(ok: bool)
    | Concluded
    | MessageRead
    | Withdrawn

  datatype Move = BySender(sm: SenderMove) | ByRival(rm: RivalMove) | ByWinner(wm: WinnerMove)

  /** The compare-and-swap on `resolved`. */
  function Claim(r: Req, who: Winner): Req {
    if r.resolved then r
    else r.(resolved := true, winner := who, wins := r.wins + 1,
            winnerPc := if who.ByCallback? then StopTimer else SetStatus)
  }

  predicate SenderCan(cfg: Config, r: Req, m: SenderMove) {
    match m
    case Begin(usable) => r.sender.Start? && usable == Usable(cfg)
    case Reserved(_) => r.sender.Reserve?
    case RolledBack => r.sender.RollBack?
    case Registered(_) => r.sender.Register?
    case Indexed => r.sender.Index?
    case CheckedActive(_) => r.sender.CheckActive?
    case Built(_) => r.sender.Build?
    case SendDone(_, _) => r.sender.Send?
    case Published => r.sender.Publish?
    case Rechecked => r.sender.Recheck?
    case Armed => r.sender.Arm?
    case RecalledBySender => r.sender.Recall?
    case SenderClaims => r.sender.Invalidate?
    case SenderReturns => r.sender.AwaitOwnWin? && r.winnerPc.Finished?
  }

  function SenderApply(r: Req, m: SenderMove): Req {
    match m
    case Begin(usable) => r.(sender := if usable then Reserve else Returned)
    case Reserved(admitted) => r.(sender := if admitted then Register else RollBack(true))
    case RolledBack => r.(sender := Returned)
    case Registered(loaded) => if loaded then r.(sender := RollBack(false)) else r.(sender := Index, registered := true)
    case Indexed => r.(sender := CheckActive, indexed := true)
    case CheckedActive(active) => r.(sender := if active then Build else Invalidate, passed := active)
    case Built(ok) => if ok then r.(sender := Send, clickable := true) else r.(sender := Invalidate)
    case SendDone(sent, hasId) => if sent then r.(sender := Publish, shown := Message(hasId)) else r.(sender := Invalidate)
    case Published => r.(sender := Recheck, msg := r.shown)
    case Rechecked => r.(sender := if !r.resolved then Arm else if r.msg == Message(true) then Recall else Returned)
    case Armed => r.(sender := Returned, timer := Running)
    case RecalledBySender => r.(sender := Returned, recalls := r.recalls + 1)
    case SenderClaims => Claim(r, ByInvalidation).(sender := if r.resolved then Returned else AwaitOwnWin)
    case SenderReturns => r.(sender := Returned)
  }

  predicate RivalCan(cfg: Config, r: Req, m: RivalMove) {
    match m
    case TimerFires => r.timer.Running?
    case TimerClaims => r.timer.Firing?
    case ClickClaims(_, click) => r.clickable && Authorized(cfg, click)
    case CleanupClaims => true
  }

  function RivalApply(r: Req, m: RivalMove): Req {
    match m
    case TimerFires => r.(timer := Firing)
    case TimerClaims => Claim(r, ByTimer).(timer := Fired)
    case ClickClaims(approved, click) => Claim(r, ByCallback(approved, click))
    case CleanupClaims => Claim(r, ByInvalidation)
  }

  predicate WinnerCan(r: Req, m: WinnerMove) {
    match m
    case StatusSet => r.winnerPc.SetStatus?
    case TimerStopped => r.winnerPc.StopTimer? && !MuHeld(r)
    case Unregistered => r.winnerPc.Unregister?
    case Unindexed => r.winnerPc.Unindex?
    case Released => r.winnerPc.Release?
    case TestedActive(_) => r.winnerPc.TestActive?
    case TestedLocked(_) => r.winnerPc.TestLocked?
    case DeadlineSet(_) => r.winnerPc.SetDeadline?
    case Encoded(_) => r.winnerPc.Encode?
    case Concluded => r.winnerPc.Conclude?
    case MessageRead => r.winnerPc.ReadMessage? && !MuHeld(r)
    case Withdrawn => r.winnerPc.Withdraw?
  }

  function WinnerApply(r: Req, m: WinnerMove): Req {
    match m
    case StatusSet => r.(winnerPc := StopTimer, status := if r.winner.ByTimer? then TimedOut else Invalidated)
    case TimerStopped => r.(winnerPc := Unregister, timer := if r.timer.Running? then Stopped else r.timer)
    case Unregistered => r.(winnerPc := Unindex)
    case Unindexed => r.(winnerPc := Release)
    case Released => r.(winnerPc := if r.winner.ByCallback? then TestActive else ReadMessage)
    case TestedActive(active) => r.(winnerPc := if active then TestLocked else Conclude(false))
    case TestedLocked(active) => r.(winnerPc := if active then SetDeadline else Conclude(false))
    case DeadlineSet(ok) => r.(winnerPc := if ok then Encode else Conclude(false))
    case Encoded(ok) => r.(winnerPc := Conclude(ok), writes := r.writes + [r.winner.ByCallback? && r.winner.approved])
    case Concluded =>
      if r.winnerPc == Conclude(true) then r.(winnerPc := Finished, status := Delivered)
      else r.(winnerPc := ReadMessage, status := DeliveryFailed)
    case MessageRead => r.(winnerPc := if r.msg == Message(true) then Withdraw else Finished)
    case Withdrawn => r.(winnerPc := Finished, recalls := r.recalls + 1)
  }

  predicate CanMove(cfg: Config, r: Req, m: Move) {
    match m
    case BySender(sm) => SenderCan(cfg, r, sm)
    case ByRival(rm) => RivalCan(cfg, r, rm)
    case ByWinner(wm) => WinnerCan(r, wm)
  }

  function Apply(r: Req, m: Move): Req {
    match m
    case BySender(sm) => SenderApply(r, sm)
    case ByRival(rm) => RivalApply(r, rm)
    case ByWinner(wm) => WinnerApply(r, wm)
  }

  /** Stages of the winner, by what it has already done. */
  predicate BeforeTimerStop(w: WinnerPc) { w.Idle? || w.SetStatus? || w.StopTimer? }
  predicate BeforeUnregister(w: WinnerPc) { BeforeTimerStop(w) || w.Unregister? }
  predicate BeforeRelease(w: WinnerPc) { BeforeUnregister(w) || w.Unindex? || w.Release? }
  predicate AfterConclude(w: WinnerPc) { w.ReadMessage? || w.Withdraw? || w.Finished? }

  /** The sender has not reached its connection's map, so nobody can know the request yet. */
  predicate Unreachable(p: SenderPc) {
    p.Start? || p.Reserve? || p.RollBack? || p.Register? || p.Index?
  }

  predicate Ended(st: Status) {
    st.TimedOut? || st.Invalidated? || st.DeliveryFailed?
  }

  ghost predicate ClaimInv(cfg: Config, r: Req) {
    && r.wins == (if r.resolved then 1 else 0)
    && (r.resolved <==> !r.winnerPc.Idle?)
    && (r.resolved <==> !r.winner.NoOne?)
    && (r.winner.ByCallback? ==> Authorized(cfg, r.winner.click))
    && (r.resolved || r.clickable || !r.timer.Unset? || !r.shown.NoMessage? || r.passed ==> r.indexed)
    && (r.indexed ==> r.registered && !Unreachable(r.sender))
    && (r.registered ==> r.sender.Index? || !Unreachable(r.sender))
    && (!Unreachable(r.sender) && !r.sender.Returned? ==> r.indexed)
    && (r.registered && r.sender.Returned? ==> r.indexed)
    && (r.sender.Index? ==> r.registered)
    && (r.registered && !r.passed && !r.resolved ==> r.sender.Index? || r.sender.CheckActive? || r.sender.Invalidate?)
    && (r.sender.AwaitOwnWin? ==> r.resolved)
  }

  ghost predicate StatusInv(r: Req) {
    && (r.winner.NoOne? ==> r.status.Pending?)
    && (r.winner.ByTimer? ==> r.status == if r.winnerPc.SetStatus? then Pending else TimedOut)
    && (r.winner.ByInvalidation? ==> r.status == if r.winnerPc.SetStatus? then Pending else Invalidated)
    && (r.winner.ByCallback? ==>
          && !r.winnerPc.SetStatus?
          && (!AfterConclude(r.winnerPc) ==> r.status.Pending?)
          && (AfterConclude(r.winnerPc) ==> r.status.DeliveryFailed? || (r.status.Delivered? && r.winnerPc.Finished?)))
    && (!r.winner.ByCallback? ==>
          !r.winnerPc.TestActive? && !r.winnerPc.TestLocked? && !r.winnerPc.SetDeadline? && !r.winnerPc.Encode? &&
          !r.winnerPc.Conclude?)
  }

  ghost predicate WriteInv(r: Req) {
    && (r.writes != [] ==> r.winner.ByCallback? && (r.winnerPc.Conclude? || AfterConclude(r.winnerPc)) && r.writes == [r.winner.approved])
    && (r.winnerPc == Conclude(true) || r.status.Delivered? ==> r.writes != [])
  }

  ghost predicate TimerInv(r: Req) {
    && (!r.timer.Unset? ==> r.sender.Returned?)
    && (r.sender.Arm? || r.timer.Running? ==> BeforeTimerStop(r.winnerPc))
    && (r.registered && !r.resolved && r.sender.Returned? ==> r.timer.Running? || r.timer.Firing?)
  }

  ghost predicate MessageInv(r: Req) {
    && (!r.msg.NoMessage? ==> r.msg == r.shown)
    && (!r.shown.NoMessage? && r.msg.NoMessage? ==> r.sender.Publish?)
    && (r.sender.Publish? ==> !r.shown.NoMessage? && r.msg.NoMessage?)
    && (r.sender.Recheck? || r.sender.Arm? || r.sender.Recall? ==> !r.msg.NoMessage?)
    && (!r.shown.NoMessage? ==>
          r.sender.Publish? || r.sender.Recheck? || r.sender.Arm? || r.sender.Recall? || r.sender.Returned?)
  }

  ghost predicate RecallInv(r: Req) {
    && (r.winnerPc.Finished? && Ended(r.status) && r.shown == Message(true) ==>
          r.recalls > 0 || r.sender.Publish? || r.sender.Recheck? || r.sender.Recall?)
    && (r.sender.Recall? ==> r.resolved && r.shown == Message(true))
    && (r.winnerPc.Withdraw? ==> r.shown == Message(true))
    && (r.recalls > 0 ==> r.resolved && r.shown == Message(true))
  }

  /** What every request keeps, whatever the interleaving. */
  ghost predicate ReqInv(cfg: Config, r: Req) {
    ClaimInv(cfg, r) && StatusInv(r) && WriteInv(r) && TimerInv(r) && MessageInv(r) && RecallInv(r)
  }

  lemma NewReqInv(cfg: Config, conn: nat, id: string)
    ensures ReqInv(cfg, NewReq(conn, id))
  {
  }

  lemma SenderKeepsClaim(cfg: Config, r: Req, m: SenderMove)
    requires ClaimInv(cfg, r) && SenderCan(cfg, r, m)
    ensures ClaimInv(cfg, SenderApply(r, m))
  {
  }

  lemma SenderKeepsStatus(cfg: Config, r: Req, m: SenderMove)
    requires ClaimInv(cfg, r) && StatusInv(r) && SenderCan(cfg, r, m)
    ensures StatusInv(SenderApply(r, m))
  {
  }

  lemma SenderKeepsWrite(cfg: Config, r: Req, m: SenderMove)
    requires ClaimInv(cfg, r) && WriteInv(r) && SenderCan(cfg, r, m)
    ensures WriteInv(SenderApply(r, m))
  {
  }

  lemma SenderKeepsTimer(cfg: Config, r: Req, m: SenderMove)
    requires ClaimInv(cfg, r) && TimerInv(r) && RecallInv(r) && SenderCan(cfg, r, m)
    ensures TimerInv(SenderApply(r, m))
  {
  }

  lemma SenderKeepsMessage(cfg: Config, r: Req, m: SenderMove)
    requires MessageInv(r) && SenderCan(cfg, r, m)
    ensures MessageInv(SenderApply(r, m))
  {
    match m
    case Begin(_) =>
    case Reserved(_) =>
    case RolledBack =>
    case Registered(_) =>
    case Indexed =>
    case CheckedActive(_) =>
    case Built(_) =>
    case SendDone(_, _) =>
    case Published =>
    case Rechecked =>
    case Armed =>
    case RecalledBySender =>
    case SenderClaims =>
    case SenderReturns =>
  }

  lemma SenderKeepsRecall(cfg: Config, r: Req, m: SenderMove)
    requires ClaimInv(cfg, r) && TimerInv(r) && MessageInv(r) && RecallInv(r) && SenderCan(cfg, r, m)
    ensures RecallInv(SenderApply(r, m))
  {
  }

  lemma RivalKeepsClaim(cfg: Config, r: Req, m: RivalMove)
    requires ClaimInv(cfg, r) && RivalCan(cfg, r, m)
    requires m.CleanupClaims? ==> r.indexed
    ensures ClaimInv(cfg, RivalApply(r, m))
  {
  }

  lemma RivalKeepsStatus(cfg: Config, r: Req, m: RivalMove)
    requires ClaimInv(cfg, r) && StatusInv(r) && RivalCan(cfg, r, m)
    ensures StatusInv(RivalApply(r, m))
  {
  }

  lemma RivalKeepsWrite(cfg: Config, r: Req, m: RivalMove)
    requires ClaimInv(cfg, r) && StatusInv(r) && WriteInv(r) && RivalCan(cfg, r, m)
    ensures WriteInv(RivalApply(r, m))
  {
  }

  lemma RivalKeepsTimer(cfg: Config, r: Req, m: RivalMove)
    requires ClaimInv(cfg, r) && TimerInv(r) && RivalCan(cfg, r, m)
    ensures TimerInv(RivalApply(r, m))
  {
  }

  lemma RivalKeepsMessage(cfg: Config, r: Req, m: RivalMove)
    requires MessageInv(r) && RivalCan(cfg, r, m)
    ensures MessageInv(RivalApply(r, m))
  {
  }

  lemma RivalKeepsRecall(cfg: Config, r: Req, m: RivalMove)
    requires ClaimInv(cfg, r) && StatusInv(r) && RecallInv(r) && RivalCan(cfg, r, m)
    ensures RecallInv(RivalApply(r, m))
  {
  }

  lemma WinnerKeepsClaim(cfg: Config, r: Req, m: WinnerMove)
    requires ClaimInv(cfg, r) && WinnerCan(r, m)
    ensures ClaimInv(cfg, WinnerApply(r, m))
  {
  }

  lemma WinnerKeepsStatus(cfg: Config, r: Req, m: WinnerMove)
    requires ClaimInv(cfg, r) && StatusInv(r) && WinnerCan(r, m)
    ensures StatusInv(WinnerApply(r, m))
  {
  }

  lemma WinnerKeepsWrite(cfg: Config, r: Req, m: WinnerMove)
    requires StatusInv(r) && WriteInv(r) && WinnerCan(r, m)
    ensures WriteInv(WinnerApply(r, m))
  {
  }

  lemma WinnerKeepsTimer(cfg: Config, r: Req, m: WinnerMove)
    requires ClaimInv(cfg, r) && TimerInv(r) && WinnerCan(r, m)
    ensures TimerInv(WinnerApply(r, m))
  {
  }

  lemma WinnerKeepsMessage(cfg: Config, r: Req, m: WinnerMove)
    requires MessageInv(r) && WinnerCan(r, m)
    ensures MessageInv(WinnerApply(r, m))
  {
    match m
    case StatusSet =>
    case TimerStopped =>
    case Unregistered =>
    case Unindexed =>
    case Released =>
    case TestedActive(_) =>
    case TestedLocked(_) =>
    case DeadlineSet(_) =>
    case Encoded(_) =>
    case Concluded =>
    case MessageRead =>
    case Withdrawn =>
  }

  lemma WinnerKeepsRecall(cfg: Config, r: Req, m: WinnerMove)
    requires ClaimInv(cfg, r) && StatusInv(r) && MessageInv(r) && RecallInv(r) && WinnerCan(r, m)
    ensures RecallInv(WinnerApply(r, m))
  {
    match m
    case StatusSet =>
    case TimerStopped =>
    case Unregistered =>
    case Unindexed =>
    case Released =>
    case TestedActive(_) =>
    case TestedLocked(_) =>
    case DeadlineSet(_) =>
    case Encoded(_) =>
    case Concluded =>
    case MessageRead =>
    case Withdrawn =>
  }

  /** Every move keeps the request invariant; the cleanup only ever meets indexed requests. */
  lemma MoveKeepsReqInv(cfg: Config, r: Req, m: Move)
    requires ReqInv(cfg, r) && CanMove(cfg, r, m)
    requires m == ByRival(CleanupClaims) ==> r.indexed
    ensures ReqInv(cfg, Apply(r, m))
  {
    match m
    case BySender(sm) =>
      SenderKeepsClaim(cfg, r, sm);
      SenderKeepsStatus(cfg, r, sm);
      SenderKeepsWrite(cfg, r, sm);
      SenderKeepsTimer(cfg, r, sm);
      SenderKeepsMessage(cfg, r, sm);
      SenderKeepsRecall(cfg, r, sm);
    case ByRival(rm) =>
      RivalKeepsClaim(cfg, r, rm);
      RivalKeepsStatus(cfg, r, rm);
      RivalKeepsWrite(cfg, r, rm);
      RivalKeepsTimer(cfg, r, rm);
      RivalKeepsMessage(cfg, r, rm);
      RivalKeepsRecall(cfg, r, rm);
    case ByWinner(wm) =>
      WinnerKeepsClaim(cfg, r, wm);
      WinnerKeepsStatus(cfg, r, wm);
      WinnerKeepsWrite(cfg, r, wm);
      WinnerKeepsTimer(cfg, r, wm);
      WinnerKeepsMessage(cfg, r, wm);
      WinnerKeepsRecall(cfg, r, wm);
  }

  /** The request's own entry is in the global map. */
  predicate InMap(r: Req) {
    r.registered && BeforeUnregister(r.winnerPc)
  }

  /** What a move leaves of a request's identity, and which moves change its place in the global map. */
  ghost predicate SameIdentity(r: Req, m: Move, r': Req) {
    && r'.conn == r.conn && r'.id == r.id
    && (r.indexed ==> r'.indexed)
    && (InMap(r') <==> if m == BySender(Registered(false)) then true
                       else if m == ByWinner(Unregistered) then false
                       else InMap(r))
    && (m == ByWinner(Unregistered) ==> InMap(r))
    && (m == BySender(Indexed) ==> r'.indexed)
  }

  lemma SenderKeepsIdentity(cfg: Config, r: Req, m: SenderMove)
    requires ClaimInv(cfg, r) && SenderCan(cfg, r, m)
    ensures SameIdentity(r, BySender(m), SenderApply(r, m))
  {
  }

  lemma WinnerKeepsIdentity(cfg: Config, r: Req, m: WinnerMove)
    requires ClaimInv(cfg, r) && WinnerCan(r, m)
    ensures SameIdentity(r, ByWinner(m), WinnerApply(r, m))
  {
  }

  lemma MoveKeepsIdentity(cfg: Config, r: Req, m: Move)
    requires ReqInv(cfg, r) && CanMove(cfg, r, m)
    ensures SameIdentity(r, m, Apply(r, m))
  {
    match m
    case BySender(sm) => SenderKeepsIdentity(cfg, r, sm);
    case ByRival(rm) =>
    case ByWinner(wm) => WinnerKeepsIdentity(cfg, r, wm);
  }
}
