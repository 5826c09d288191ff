/** The quota counter of the approval protocol counts exactly the slots in use. */
module SshQuota {
  import opened SshRequest
  import opened SshApproval

  /** The request has incremented the counter and has not yet decremented it. */
  predicate HoldsSlot(r: Req) {
    r.sender.RollBack? || r.sender.Register? || (r.registered && BeforeRelease(r.winnerPc))
  }

  /** It holds its slot legitimately: it is not about to give back a slot beyond the quota. */
  predicate Admitted(r: Req) {
    HoldsSlot(r) && r.sender != RollBack(true)
  }

  ghost function SlotHolders(s: State): set<nat> {
    set i | i in s.reqs && HoldsSlot(s.reqs[i])
  }

  ghost function AdmittedRequests(s: State): set<nat> {
    set i | i in s.reqs && Admitted(s.reqs[i])
  }

  ghost predicate QuotaInv(s: State) {
    s.pendingCounter == |SlotHolders(s)| && |AdmittedRequests(s)| <= MAX_PENDING_REQUESTS
  }

  /** What the counter gains or loses is the slot the request takes or gives back. */
  ghost predicate SlotMoves(r: Req, m: Move, r': Req) {
    && (CounterChange(m) == 1 ==> !HoldsSlot(r) && HoldsSlot(r'))
    && (CounterChange(m) == -1 ==> HoldsSlot(r) && !HoldsSlot(r'))
    && (CounterChange(m) == 0 ==> HoldsSlot(r) == HoldsSlot(r'))
    && (Admitted(r') && !Admitted(r) ==> m == BySender(Reserved(true)))
  }

  lemma SenderMovesSlot(cfg: Config, r: Req, m: SenderMove)
    requires ClaimInv(cfg, r) && SenderCan(cfg, r, m)
    ensures SlotMoves(r, BySender(m), SenderApply(r, m))
  {
  }

  lemma WinnerMovesSlot(cfg: Config, r: Req, m: WinnerMove)
    requires ClaimInv(cfg, r) && WinnerCan(r, m)
    ensures SlotMoves(r, ByWinner(m), WinnerApply(r, m))
  {
  }

  lemma MoveMovesSlot(cfg: Config, r: Req, m: Move)
    requires ReqInv(cfg, r) && CanMove(cfg, r, m)
    ensures SlotMoves(r, m, Apply(r, m))
  {
    hide SenderApply, WinnerApply, SenderCan, WinnerCan;
    match m
    case BySender(sm) => SenderMovesSlot(cfg, r, sm);
    case ByRival(rm) =>
    case ByWinner(wm) => WinnerMovesSlot(cfg, r, wm);
  }

  lemma HolderCount(s: State, t: State, i: nat, m: Move)
    requires i in s.reqs && i in t.reqs && t.reqs == s.reqs[i := t.reqs[i]] && SlotMoves(s.reqs[i], m, t.reqs[i])
    ensures |SlotHolders(t)| == |SlotHolders(s)| + CounterChange(m)
  {
    hide HoldsSlot, Admitted;
    var a, b := SlotHolders(s), SlotHolders(t);
    if HoldsSlot(s.reqs[i]) == HoldsSlot(t.reqs[i]) {
      assert b == a;
    } else if HoldsSlot(t.reqs[i]) {
      assert b == a + {i};
    } else {
      assert b == a - {i};
    }
  }

  lemma AdmittedHold(s: State)
    ensures AdmittedRequests(s) <= SlotHolders(s)
  {
  }

  lemma {:induction false} SubsetSize<T>(a: set<T>, b: set<T>)
    requires a <= b
    ensures |a| <= |b|
  {
    if a != {} {
      var x :| x in a;
      SubsetSize(a - {x}, b - {x});
    }
  }

  /** One request's change of state, seen from the sets that count slots. */
  lemma SlotCount(s: State, t: State, i: nat, m: Move)
    requires i in s.reqs && i in t.reqs && t.reqs == s.reqs[i := t.reqs[i]]
    requires QuotaInv(s) && SlotMoves(s.reqs[i], m, t.reqs[i])
    requires t.pendingCounter == s.pendingCounter + CounterChange(m)
    requires m == BySender(Reserved(true)) ==> s.pendingCounter + 1 <= MAX_PENDING_REQUESTS
    ensures QuotaInv(t)
  {
    hide HoldsSlot, Admitted;
    HolderCount(s, t, i, m);
    var x, y := AdmittedRequests(s), AdmittedRequests(t);
    if m == BySender(Reserved(true)) {
      AdmittedHold(t);
      SubsetSize(y, SlotHolders(t));
    } else {
      assert y <= x;
      SubsetSize(y, x);
    }
  }

  lemma NextKeepsQuota(s: State, a: Action)
    requires Inv(s) && QuotaInv(s) && Enabled(s, a)
    ensures QuotaInv(Next(s, a))
  {
    hide ReqInv, Apply, QuotaInv, SlotMoves, CanMove;
    match a
    case OnRequest(i, m) =>
      MoveMovesSlot(s.cfg, s.reqs[i], m);
      SlotCount(s, StepNext(s, i, m), i, m);
    case OnConn(c, w) =>
      var m := ByRival(CleanupClaims);
      if w.ClaimVisited? {
        var i := s.conns[c].cleanup.value;
        assert CanMove(s.cfg, s.reqs[i], m) by { MayClaim(s.cfg, s.reqs[i]); }
        MoveMovesSlot(s.cfg, s.reqs[i], m);
        SlotCount(s, WalkNext(s, c, w), i, m);
      } else {
        SameQuota(s, WalkNext(s, c, w));
      }
  }

  lemma MayClaim(cfg: Config, r: Req)
    ensures CanMove(cfg, r, ByRival(CleanupClaims))
  {
  }

  lemma SameQuota(s: State, t: State)
    requires QuotaInv(s) && t.reqs == s.reqs && t.pendingCounter == s.pendingCounter
    ensures QuotaInv(t)
  {
    assert SlotHolders(t) == SlotHolders(s) && AdmittedRequests(t) == AdmittedRequests(s);
  }

  lemma {:induction false} RunKeepsQuota(s: State, actions: seq<Action>, t: State)
    requires Inv(s) && QuotaInv(s) && Reaches(s, actions, t)
    ensures QuotaInv(t)
    decreases |actions|
  {
    hide QuotaInv;
    if actions != [] {
      NextKeepsQuota(s, actions[0]);
      NextKeepsInv(s, actions[0]);
      RunKeepsQuota(Next(s, actions[0]), actions[1..], t);
    }
  }

  /** Distinct keys with distinct values from `bound` are no more than `bound` has elements. */
  lemma {:induction false} InjectiveSize(m: map<string, nat>, bound: set<nat>)
    requires forall k :: k in m ==> m[k] in bound
    requires forall k, l :: k in m && l in m && k != l ==> m[k] != m[l]
    ensures |m| <= |bound|
  {
    if m != map[] {
      var k :| k in m;
      var rest := m - {k};
      InjectiveSize(rest, bound - {m[k]});
      assert m.Keys == rest.Keys + {k};
    }
  }

  /**
   * In every run the counter is the number of requests that hold a slot, over-quota ones about to
   * give it back included; at most MAX_PENDING_REQUESTS are admitted, so the global map never
   * holds more entries than that.
   */
  lemma QuotaIsConserved(s: State, actions: seq<Action>, t: State)
    requires Init(s) && Reaches(s, actions, t)
    ensures t.pendingCounter == |SlotHolders(t)|
    ensures |AdmittedRequests(t)| <= MAX_PENDING_REQUESTS
    ensures |t.pendingMap| <= MAX_PENDING_REQUESTS == 100
  {
    hide Reaches, ConnsInv, MapInv, ReqInv;
    assert SlotHolders(s) == {} && AdmittedRequests(s) == {};
    InitInv(s);
    RunKeepsQuota(s, actions, t);
    RunKeepsInv(s, actions, t);
    MapIsAdmitted(t);
  }

  lemma MapIsAdmitted(t: State)
    requires Inv(t)
    ensures |t.pendingMap| <= |AdmittedRequests(t)|
  {
    hide ConnsInv, StatusInv, WriteInv, TimerInv, MessageInv, RecallInv;
    forall k | k in t.pendingMap ensures t.pendingMap[k] in AdmittedRequests(t) {
      assert ClaimInv(t.cfg, t.reqs[t.pendingMap[k]]);
    }
    InjectiveSize(t.pendingMap, AdmittedRequests(t));
  }

  /** When every goroutine has returned the counter is back at zero and the global map is empty. */
  lemma QuotaReturnsToZero(s: State, actions: seq<Action>, t: State)
    requires Init(s) && Reaches(s, actions, t)
    requires forall i :: i in t.reqs ==>
      t.reqs[i].sender.Returned? && (t.reqs[i].registered ==> t.reqs[i].winnerPc.Finished?)
    ensures t.pendingCounter == 0 && t.pendingMap == map[]
  {
    hide Reaches, Init, ReqInv, ConnsInv, Inv;
    QuotaIsConserved(s, actions, t);
    assert SlotHolders(t) == {} && AdmittedRequests(t) == {};
    ReachableInv(s, actions, t);
    MapIsAdmitted(t);
  }
}
