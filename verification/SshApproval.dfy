/**
 * The approval protocol as a transition system: any number of requests on any number of
 * connections, the global map of pending requests, each connection's own map, the quota counter,
 * and one cleanup per connection that walks its map key by key while others change it.
 */
module SshApproval {
  import opened Options
  import opened SshRequest

  const MAX_PENDING_REQUESTS := 100

  type Entry = (string, nat)

  datatype CleanupPc =
    | NotStarted
    | Ranging
    | Claiming(key: string, value: nat)
    | Deleting(key: string, won: Option<nat>)  // the winning invalidation it waits for, if any
    | Done

  /**
   * `required` holds the keys present since the walk began, which it must visit; `offered` the
   * entries the map held at some point of the walk, any of which it may be given.
   */
  datatype Conn = Conn(
    active: bool, pending: map<string, nat>,
    cleanup: CleanupPc, required: set<string>, offered: set<Entry>, visited: set<string>)

  datatype State = State(
    cfg: Config, reqs: map<nat, Req>, conns: map<nat, Conn>,
    pendingMap: map<string, nat>, pendingCounter: int)

  /** Moves of a connection's owner: it closes the connection and then walks its map. */
  datatype Walk =
    | Close
    | BeginRange
    | Visit(entry: Entry)
    | ClaimVisited
    | DeleteVisited
    | EndRange

  datatype Action = OnRequest(i: nat, m: Move) | OnConn(c: nat, w: Walk)

  function Put(conn: Conn, id: string, i: nat): Conn {
    conn.(pending := conn.pending[id := i], offered := conn.offered + {(id, i)})
  }

  function Drop(conn: Conn, id: string): Conn {
    conn.(pending := conn.pending - {id}, required := conn.required - {id})
  }

  function Entries(m: map<string, nat>): set<Entry> {
    set k | k in m :: (k, m[k])
  }

  /** Connections a request points at exist. */
  predicate Linked(s: State) {
    forall i :: i in s.reqs ==> s.reqs[i].conn in s.conns
  }

  // ---------------------------------------------------------------- a move of one request

  /** What a move of `r` reads from the shared state agrees with that state. */
  predicate ReadsShared(r: Req, m: Move, conn: Conn, pending: map<string, nat>, counter: int) {
    match m
    case BySender(Reserved(admitted)) => admitted == (counter + 1 <= MAX_PENDING_REQUESTS)
    case BySender(Registered(loaded)) => loaded == (r.id in pending)
    case BySender(CheckedActive(active)) => active == conn.active
    case ByWinner(TestedActive(active)) => active == conn.active
    case ByWinner(TestedLocked(active)) => active == conn.active
    case _ => true
  }

  predicate CanStep(s: State, i: nat, m: Move)
    requires Linked(s)
  {
    && i in s.reqs
    && m != ByRival(CleanupClaims)  // made by the connection's owner
    && CanMove(s.cfg, s.reqs[i], m)
    && ReadsShared(s.reqs[i], m, s.conns[s.reqs[i].conn], s.pendingMap, s.pendingCounter)
  }

  function MapAfter(pending: map<string, nat>, id: string, i: nat, m: Move): map<string, nat> {
    match m
    case BySender(Registered(false)) => pending[id := i]
    case ByWinner(Unregistered) => pending - {id}
    case _ => pending
  }

  function ConnAfter(conn: Conn, id: string, i: nat, m: Move): Conn {
    match m
    case BySender(Indexed) => Put(conn, id, i)
    case ByWinner(Unindexed) => Drop(conn, id)
    case _ => conn
  }

  function CounterChange(m: Move): int {
    match m
    case BySender(Reserved(_)) => 1
    case BySender(RolledBack) => -1
    case ByWinner(Released) => -1
    case _ => 0
  }

  function StepNext(s: State, i: nat, m: Move): State
    requires Linked(s) && i in s.reqs
  {
    var r := s.reqs[i];
    State(s.cfg,
          s.reqs[i := Apply(r, m)],
          s.conns[r.conn := ConnAfter(s.conns[r.conn], r.id, i, m)],
          MapAfter(s.pendingMap, r.id, i, m),
          s.pendingCounter + CounterChange(m))
  }

  // ---------------------------------------------------------------- a move of a connection's owner

  predicate WinFinished(s: State, won: Option<nat>) {
    won.Some? ==> won.value in s.reqs && s.reqs[won.value].winnerPc.Finished?
  }

  predicate CanWalk(s: State, c: nat, w: Walk) {
    c in s.conns &&
    var conn := s.conns[c];
    match w
    case Close => true
    case BeginRange => !conn.active && conn.cleanup.NotStarted?
    case Visit(entry) => conn.cleanup.Ranging? && entry in conn.offered && entry.0 !in conn.visited
    case ClaimVisited => conn.cleanup.Claiming? && conn.cleanup.value in s.reqs
    case DeleteVisited => conn.cleanup.Deleting? && WinFinished(s, conn.cleanup.won)
    case EndRange => conn.cleanup.Ranging? && conn.required <= conn.visited
  }

  function WalkedConn(s: State, c: nat, w: Walk): Conn
    requires CanWalk(s, c, w)
  {
    var conn := s.conns[c];
    match w
    case Close => conn.(active := false)
    case BeginRange =>
      conn.(cleanup := Ranging, required := conn.pending.Keys, offered := Entries(conn.pending), visited := {})
    case Visit(entry) =>
      conn.(cleanup := Claiming(entry.0, entry.1), visited := conn.visited + {entry.0})
    case ClaimVisited =>
      var i := conn.cleanup.value;
      conn.(cleanup := Deleting(conn.cleanup.key, if s.reqs[i].resolved then None else Some(i)))
    case DeleteVisited => Drop(conn, conn.cleanup.key).(cleanup := Ranging)
    case EndRange => conn.(cleanup := Done)
  }

  function WalkedReqs(s: State, c: nat, w: Walk): map<nat, Req>
    requires CanWalk(s, c, w)
  {
    if w.ClaimVisited?
    then var i := s.conns[c].cleanup.value; s.reqs[i := Apply(s.reqs[i], ByRival(CleanupClaims))]
    else s.reqs
  }

  function WalkNext(s: State, c: nat, w: Walk): State
    requires CanWalk(s, c, w)
  {
    s.(conns := s.conns[c := WalkedConn(s, c, w)], reqs := WalkedReqs(s, c, w))
  }

  // ---------------------------------------------------------------- runs

  predicate Enabled(s: State, a: Action)
    requires Linked(s)
  {
    match a
    case OnRequest(i, m) => CanStep(s, i, m)
    case OnConn(c, w) => CanWalk(s, c, w)
  }

  function Next(s: State, a: Action): State
    requires Linked(s) && Enabled(s, a)
  {
    match a
    case OnRequest(i, m) => StepNext(s, i, m)
    case OnConn(c, w) => WalkNext(s, c, w)
  }

  /** Requests that have not begun, on fresh connections. */
  predicate Init(s: State) {
    && Linked(s)
    && (forall i :: i in s.reqs ==> s.reqs[i] == NewReq(s.reqs[i].conn, s.reqs[i].id))
    && (forall c :: c in s.conns ==> s.conns[c] == Conn(true, map[], NotStarted, {}, {}, {}))
    && s.pendingMap == map[] && s.pendingCounter == 0
  }

  /** `t` is what the actions make of `s`, each enabled in its turn. */
  ghost predicate Reaches(s: State, actions: seq<Action>, t: State)
    decreases |actions|
  {
    if actions == [] then s == t
    else Linked(s) && Enabled(s, actions[0]) && Reaches(Next(s, actions[0]), actions[1..], t)
  }

  // ---------------------------------------------------------------- invariants

  ghost predicate ReqsInv(s: State) {
    forall i :: i in s.reqs ==> ReqInv(s.cfg, s.reqs[i])
  }

  /** An entry of the global map belongs to a request between its registration and its cleanup. */
  ghost predicate MapInv(s: State) {
    EntriesOwned(s) && OwnersEntered(s)
  }

  ghost predicate EntriesOwned(s: State) {
    forall id :: id in s.pendingMap ==>
      s.pendingMap[id] in s.reqs && s.reqs[s.pendingMap[id]].id == id && InMap(s.reqs[s.pendingMap[id]])
  }

  ghost predicate OwnersEntered(s: State) {
    forall i :: i in s.reqs && InMap(s.reqs[i]) ==> s.reqs[i].id in s.pendingMap && s.pendingMap[s.reqs[i].id] == i
  }

  predicate GoodEntry(s: State, c: nat, key: string, i: nat) {
    i in s.reqs && s.reqs[i].indexed && s.reqs[i].conn == c && s.reqs[i].id == key
  }

  ghost predicate ConnInv(s: State, c: nat)
    requires c in s.conns
  {
    var conn := s.conns[c];
    && (forall k :: k in conn.pending ==> GoodEntry(s, c, k, conn.pending[k]))
    && (forall k, i :: (k, i) in conn.offered ==> GoodEntry(s, c, k, i))
    && (conn.cleanup.Claiming? ==> GoodEntry(s, c, conn.cleanup.key, conn.cleanup.value))
    && (!conn.cleanup.NotStarted? ==> !conn.active)
    && (conn.cleanup.Claiming? || conn.cleanup.Deleting? ==> conn.cleanup.key in conn.visited)
    && (forall k :: k in conn.required && k in conn.visited ==>
          (conn.cleanup.Claiming? || conn.cleanup.Deleting?) && conn.cleanup.key == k)
    && (conn.cleanup.Done? ==> conn.required == {})
  }

  ghost predicate ConnsInv(s: State) {
    forall c :: c in s.conns ==> ConnInv(s, c)
  }

  ghost predicate Inv(s: State) {
    Linked(s) && ReqsInv(s) && MapInv(s) && ConnsInv(s)
  }

  lemma InitInv(s: State)
    requires Init(s)
    ensures Inv(s)
  {
    forall i | i in s.reqs ensures ReqInv(s.cfg, s.reqs[i]) && !InMap(s.reqs[i]) {
      NewReqInv(s.cfg, s.reqs[i].conn, s.reqs[i].id);
    }
    hide ReqInv, InMap;
  }

  /** Requests keep their connection and ID, and once indexed stay so. */
  ghost predicate Extends(s: State, t: State) {
    forall i :: i in s.reqs ==>
      && i in t.reqs
      && t.reqs[i].conn == s.reqs[i].conn && t.reqs[i].id == s.reqs[i].id
      && (s.reqs[i].indexed ==> t.reqs[i].indexed)
  }

  lemma StepKeepsReqs(s: State, i: nat, m: Move)
    requires Inv(s) && CanStep(s, i, m)
    ensures var t := StepNext(s, i, m); ReqsInv(t) && Linked(t) && Extends(s, t)
  {
    hide CanMove, Apply, ReqInv, ReadsShared, MapAfter, ConnAfter, CounterChange, MapInv, ConnInv;
    MoveKeepsIdentity(s.cfg, s.reqs[i], m);
    MoveKeepsReqInv(s.cfg, s.reqs[i], m);
  }

  lemma StepKeepsEntries(s: State, i: nat, m: Move)
    requires Inv(s) && CanStep(s, i, m)
    ensures EntriesOwned(StepNext(s, i, m))
  {
    hide CanMove, Apply, ReqInv, ConnAfter, CounterChange, ConnInv, InMap;
    MoveKeepsIdentity(s.cfg, s.reqs[i], m);
  }

  lemma StepKeepsOwners(s: State, i: nat, m: Move)
    requires Inv(s) && CanStep(s, i, m)
    ensures OwnersEntered(StepNext(s, i, m))
  {
    hide CanMove, Apply, ReqInv, ConnAfter, CounterChange, ConnInv, InMap;
    MoveKeepsIdentity(s.cfg, s.reqs[i], m);
  }

  lemma StepKeepsMap(s: State, i: nat, m: Move)
    requires Inv(s) && CanStep(s, i, m)
    ensures MapInv(StepNext(s, i, m))
  {
    StepKeepsEntries(s, i, m);
    StepKeepsOwners(s, i, m);
    hide Inv, CanStep, StepNext, EntriesOwned, OwnersEntered;
  }

  /** An unchanged connection stays in order, and so does one that gains or loses an entry. */
  lemma ConnInvExtends(s: State, t: State, c: nat)
    requires c in s.conns && c in t.conns && Extends(s, t) && ConnInv(s, c)
    requires || t.conns[c] == s.conns[c]
             || (exists id :: t.conns[c] == Drop(s.conns[c], id))
             || (exists id, i :: GoodEntry(t, c, id, i) && t.conns[c] == Put(s.conns[c], id, i))
    ensures ConnInv(t, c)
  {
  }

  lemma StepKeepsConns(s: State, i: nat, m: Move)
    requires Inv(s) && CanStep(s, i, m)
    ensures ConnsInv(StepNext(s, i, m))
  {
    hide CanMove, Apply, ReqInv, ReadsShared, MapAfter, CounterChange, MapInv, ConnInv, Drop, Put;
    StepKeepsReqs(s, i, m);
    MoveKeepsIdentity(s.cfg, s.reqs[i], m);
    var t, r := StepNext(s, i, m), s.reqs[i];
    assert m == BySender(Indexed) ==> GoodEntry(t, r.conn, r.id, i);
    forall c | c in t.conns ensures ConnInv(t, c) {
      ConnInvExtends(s, t, c);
    }
  }

  lemma WalkKeepsReqs(s: State, c: nat, w: Walk)
    requires Inv(s) && CanWalk(s, c, w)
    ensures var t := WalkNext(s, c, w); ReqsInv(t) && Linked(t) && Extends(s, t)
  {
    hide Apply, ReqInv, MapInv;
    if w.ClaimVisited? {
      var i := s.conns[c].cleanup.value;
      assert GoodEntry(s, c, s.conns[c].cleanup.key, i);
      MoveKeepsIdentity(s.cfg, s.reqs[i], ByRival(CleanupClaims));
      MoveKeepsReqInv(s.cfg, s.reqs[i], ByRival(CleanupClaims));
    }
  }

  lemma WalkKeepsMap(s: State, c: nat, w: Walk)
    requires Inv(s) && CanWalk(s, c, w)
    ensures MapInv(WalkNext(s, c, w))
  {
    hide Apply, ReqInv, InMap;
    if w.ClaimVisited? {
      assert ConnInv(s, c);
      MoveKeepsIdentity(s.cfg, s.reqs[s.conns[c].cleanup.value], ByRival(CleanupClaims));
    }
  }

  lemma WalkKeepsConns(s: State, c: nat, w: Walk)
    requires Inv(s) && CanWalk(s, c, w)
    ensures ConnsInv(WalkNext(s, c, w))
  {
    hide ReqInv, MapInv, CanMove, Apply;
    WalkKeepsReqs(s, c, w);
  }

  lemma NextKeepsInv(s: State, a: Action)
    requires Inv(s) && Enabled(s, a)
    ensures Inv(Next(s, a)) && Extends(s, Next(s, a))
    ensures Next(s, a).reqs.Keys == s.reqs.Keys && Next(s, a).conns.Keys == s.conns.Keys && Next(s, a).cfg == s.cfg
  {
    hide ReqInv, CanMove, Apply, MapInv, ConnInv, ReadsShared;
    match a
    case OnRequest(i, m) =>
      StepKeepsReqs(s, i, m);
      StepKeepsMap(s, i, m);
      StepKeepsConns(s, i, m);
    case OnConn(c, w) =>
      WalkKeepsReqs(s, c, w);
      WalkKeepsMap(s, c, w);
      WalkKeepsConns(s, c, w);
  }

  /** Every state of every run is in order. */
  lemma {:induction false} RunKeepsInv(s: State, actions: seq<Action>, t: State)
    requires Inv(s) && Reaches(s, actions, t)
    ensures Inv(t) && Extends(s, t) && t.reqs.Keys == s.reqs.Keys && t.conns.Keys == s.conns.Keys && t.cfg == s.cfg
    decreases |actions|
  {
    if actions != [] {
      NextKeepsInv(s, actions[0]);
      RunKeepsInv(Next(s, actions[0]), actions[1..], t);
    }
  }

  lemma {:induction false} Chain(s: State, first: seq<Action>, t: State, second: seq<Action>, u: State)
    requires Reaches(s, first, t) && Reaches(t, second, u)
    ensures Reaches(s, first + second, u)
    decreases |first|
  {
    if first == [] {
      assert first + second == second;
    } else {
      Chain(Next(s, first[0]), first[1..], t, second, u);
      assert (first + second)[1..] == first[1..] + second;
    }
  }

  lemma ReachableInv(s: State, actions: seq<Action>, t: State)
    requires Init(s) && Reaches(s, actions, t)
    ensures Inv(t) && t.cfg == s.cfg && t.reqs.Keys == s.reqs.Keys
  {
    InitInv(s);
    RunKeepsInv(s, actions, t);
  }

  /** One more action at the end of a run. */
  lemma Then(s: State, actions: seq<Action>, t: State, a: Action)
    requires Reaches(s, actions, t) && Linked(t) && Enabled(t, a)
    ensures Reaches(s, actions + [a], Next(t, a))
  {
    var u := Next(t, a);
    assert Reaches(t, [a], u) by {
      assert [a][1..] == [];
      assert Reaches(u, [], u);
    }
    Chain(s, actions, t, [a], u);
  }
}
