/** Connection states: src/session/ConnectionSession.js and the packet gate of src/session/PacketDispatcher.js. */
module Connections {
  datatype Conn = Connected | Pending | Active | Moving | Closed

  datatype Packet = JoinGame | LevelUpdate | GameMsg | MoveResult | NetTimePing

  predicate CanTransition(a: Conn, b: Conn) {
    match a
    case Connected => b == Pending || b == Closed
    case Pending => b == Active || b == Closed
    case Active => b == Moving || b == Closed
    case Moving => b == Active || b == Closed
    case Closed => false
  }

  /** Which packets a session may send in each state. */
  predicate Allowed(c: Conn, p: Packet) {
    match c
    case Pending => p == JoinGame
    case Active => p != JoinGame
    case Moving => p == MoveResult
    case _ => false
  }
}

/**
 * The room as one value: sessions, players, level authorities and penalties, pending moves, and
 * the messages sent. Each function is one operation of the source's services and stores.
 */
module RoomSteps {
  import opened Options
  import opened Connections

  type Sid = nat
  type Level = int

  const MAX_PLAYERS := 8
  const MAX_GROUP := 7

  datatype Info = Info(id: int, uuid: string, level: Level)

  /** sessions holds every connected session; order lists those with a player, oldest first. */
  datatype People = People(sessions: map<Sid, Conn>, order: seq<Sid>, info: map<Sid, Info>, nextSid: Sid)

  /** suppressed: levels whose election messages the gate holds back. */
  datatype Board = Board(authority: map<Level, Sid>, penalized: map<Level, set<Sid>>, suppressed: set<Level>)

  /** The two textual shapes of a move id. */
  datatype MoveId = Single(player: int, target: string, now: int) | Group(txn: string, player: int)

  /** Resumed is no message: it marks in the history that a moving session became active again. */
  datatype Msg =
    | Elect(to: Sid, authority: int, level: Level)
    | Revoke(to: Sid, authority: int)
    | MoveGame(to: Sid)
    | CancelMove(to: Sid)
    | Resumed(to: Sid)

  datatype Room = Room(people: People, board: Board, pending: map<MoveId, int>, log: seq<Msg>)

  const Initial := Room(People(map[], [], map[], 0), Board(map[], map[], {}), map[], [])

  // ----- Who is where -----

  predicate InLevel(p: People, s: Sid, l: Level) {
    s in p.info && p.info[s].level == l
  }

  predicate InState(p: People, s: Sid, c: Conn) {
    s in p.sessions && p.sessions[s] == c
  }

  predicate ActiveIn(p: People, s: Sid, l: Level) {
    InLevel(p, s, l) && InState(p, s, Active)
  }

  function Actives(p: People, order: seq<Sid>, l: Level): (r: seq<Sid>)
    ensures |r| <= |order|
  {
    if order == [] then []
    else if ActiveIn(p, order[0], l) then [order[0]] + Actives(p, order[1..], l)
    else Actives(p, order[1..], l)
  }

  /** listActiveInLevel. */
  function ActiveList(p: People, l: Level): seq<Sid> {
    Actives(p, p.order, l)
  }

  // ----- Penalties -----

  function Pen(b: Board, l: Level): set<Sid> {
    if l in b.penalized then b.penalized[l] else {}
  }

  /** An empty set is not kept in the map. */
  function SetPen(b: Board, l: Level, pen: set<Sid>): Board {
    b.(penalized := if pen == {} then b.penalized - {l} else b.penalized[l := pen])
  }

  function Penalize(b: Board, l: Level, s: Sid): Board {
    SetPen(b, l, Pen(b, l) + {s})
  }

  function ClearPenalty(b: Board, l: Level, s: Sid): Board {
    if l in b.penalized then SetPen(b, l, Pen(b, l) - {s}) else b
  }

  function Among(pen: set<Sid>, active: seq<Sid>): set<Sid> {
    set s | s in pen && s in active
  }

  function Prune(b: Board, l: Level, active: seq<Sid>): Board {
    if l in b.penalized then SetPen(b, l, Among(Pen(b, l), active)) else b
  }

  // ----- Messages -----

  function Elects(targets: seq<Sid>, authority: int, l: Level): (r: seq<Msg>)
    ensures |r| == |targets|
  {
    seq(|targets|, i requires 0 <= i < |targets| => Elect(targets[i], authority, l))
  }

  function Revokes(targets: seq<Sid>, authority: int): (r: seq<Msg>)
    ensures |r| == |targets|
  {
    seq(|targets|, i requires 0 <= i < |targets| => Revoke(targets[i], authority))
  }

  /** Per target: the revoke, then the elect of the successor if there is one. */
  function RevokesAndElects(targets: seq<Sid>, authority: int, next: Option<int>, l: Level): seq<Msg> {
    if targets == [] then []
    else
      [Revoke(targets[0], authority)] +
      (if next.Some? then [Elect(targets[0], next.value, l)] else []) +
      RevokesAndElects(targets[1..], authority, next, l)
  }

  // ----- Authorities -----

  function Authority(b: Board, l: Level): Option<Sid> {
    if l in b.authority then Some(b.authority[l]) else None
  }

  function RevokeAuthority(b: Board, l: Level): Board {
    b.(authority := b.authority - {l})
  }

  function Reset(b: Board, l: Level): Board {
    b.(authority := b.authority - {l}, penalized := b.penalized - {l})
  }

  /** setAuthority throws unless the player is in the level. */
  predicate CanElect(r: Room, l: Level, s: Sid) {
    InLevel(r.people, s, l)
  }

  /** setAuthority and the handlers it fires: a change is announced to every active player there. */
  function SetAuthority(r: Room, l: Level, s: Sid): Room
    requires CanElect(r, l, s)
  {
    var elected := r.(board := r.board.(authority := r.board.authority[l := s]));
    if Authority(r.board, l) == Some(s) || l in r.board.suppressed then elected
    else elected.(log := r.log + Elects(ActiveList(r.people, l), r.people.info[s].id, l))
  }

  /** The handlers called for one target, the authority staying as it is. */
  function NotifyOne(r: Room, l: Level, authority: Sid, target: Sid): Room
    requires authority in r.people.info
  {
    if l in r.board.suppressed then r else r.(log := r.log + [Elect(target, r.people.info[authority].id, l)])
  }

  function FirstUnpenalized(active: seq<Sid>, pen: set<Sid>): (c: Option<Sid>)
    ensures c.Some? ==> c.value in active && c.value !in pen
    ensures c.None? ==> forall s :: s in active ==> s in pen
  {
    if active == [] then None
    else if active[0] !in pen then Some(active[0])
    else FirstUnpenalized(active[1..], pen)
  }

  /** The first unpenalized candidate, or the only active player even when penalized. */
  function Pick(b: Board, l: Level, active: seq<Sid>): (c: Option<Sid>)
    ensures c.Some? ==> c.value in active
    ensures c.None? ==> |active| != 1 && forall s :: s in active ==> s in Pen(b, l)
  {
    var c := FirstUnpenalized(active, Pen(b, l));
    if c.Some? then c
    else if |active| == 1 then Some(active[0])
    else None
  }

  lemma {:induction false} ActivesMembers(p: People, order: seq<Sid>, l: Level)
    ensures forall s :: s in Actives(p, order, l) <==> s in order && ActiveIn(p, s, l)
  {
    if order != [] {
      ActivesMembers(p, order[1..], l);
      assert order == [order[0]] + order[1..];
    }
  }

  lemma PickedIsActive(r: Room, l: Level)
    ensures forall s :: s in ActiveList(r.people, l) ==> ActiveIn(r.people, s, l)
  {
    ActivesMembers(r.people, r.people.order, l);
  }

  /** Elect the picked candidate, forgiving a sole penalized player. */
  function ElectPicked(r: Room, l: Level, s: Sid): Room
    requires CanElect(r, l, s)
  {
    SetAuthority(r.(board := if s in Pen(r.board, l) then ClearPenalty(r.board, l, s) else r.board), l, s)
  }

  predicate Keeps(b: Board, l: Level, active: seq<Sid>) {
    l in b.authority && b.authority[l] in active && b.authority[l] !in Pen(b, l)
  }

  /** rebalanceAuthority. */
  function Rebalance(r: Room, l: Level): Room {
    var active := ActiveList(r.people, l);
    var pruned := r.(board := Prune(r.board, l, active));
    if Keeps(pruned.board, l, active) then pruned
    else
      match Pick(pruned.board, l, active)
      case Some(s) =>
        assert CanElect(pruned, l, s) by { PickedIsActive(r, l); }
        ElectPicked(pruned, l, s)
      case None => if active == [] then pruned.(board := Reset(pruned.board, l)) else pruned
  }

  /** selectAuthorityCandidate followed by setAuthority when it finds one. */
  function SelectAndElect(r: Room, l: Level): Room {
    var active := ActiveList(r.people, l);
    var pruned := r.(board := Prune(r.board, l, active));
    match Pick(pruned.board, l, active)
    case Some(s) =>
      assert CanElect(pruned, l, s) by { PickedIsActive(r, l); }
      ElectPicked(pruned, l, s)
    case None => pruned
  }

  /** releaseAuthority for player s, whose level is l (it may already be out of the store). */
  function Release(r: Room, s: Sid, l: Level): Room {
    var cleared := r.(board := ClearPenalty(r.board, l, s));
    var b := if Authority(cleared.board, l) == Some(s) then RevokeAuthority(cleared.board, l) else cleared.board;
    Rebalance(r.(board := b), l)
  }

  // ----- Client packets -----

  function SetState(p: People, s: Sid, c: Conn): People {
    p.(sessions := p.sessions[s := c])
  }

  predicate MaySend(r: Room, s: Sid, packet: Packet) {
    s in r.people.sessions && Allowed(r.people.sessions[s], packet)
  }

  /** players.add found room and no clash for this session, this id and this uuid. */
  predicate CanAdd(r: Room, s: Sid, id: int, uuid: string) {
    && |r.people.info| < MAX_PLAYERS
    && s !in r.people.info
    && forall t :: t in r.people.info ==> r.people.info[t].id != id && r.people.info[t].uuid != uuid
  }

  /** join, with the id the store chose; sent is false where the EnterGame send threw. */
  function Join(r: Room, s: Sid, id: int, uuid: string, l: Level, sent: bool): Room {
    if !MaySend(r, s, JoinGame) || !CanAdd(r, s, id, uuid) || !sent then r
    else
      var p := r.people.(sessions := r.people.sessions[s := Active], order := r.people.order + [s],
                         info := r.people.info[s := Info(id, uuid, l)]);
      var joined := r.(people := p);
      match Authority(r.board, l)
      case None => SetAuthority(joined, l, s)
      case Some(a) => if a in p.info then NotifyOne(joined, l, a, s) else joined
  }

  /** The part of changeLevel that leaves the old level. */
  function LeaveLevel(r: Room, s: Sid, l: Level): Room
    requires s in r.people.info
  {
    var left := r.people.info[s].level;
    var moved := r.(people := r.people.(info := r.people.info[s := r.people.info[s].(level := l)]));
    if left == l then moved
    else
      var b := ClearPenalty(r.board, left, s);
      if Authority(b, left) == Some(s) then Rebalance(moved.(board := RevokeAuthority(b, left)), left)
      else moved.(board := b)
  }

  function EnterLevel(r: Room, s: Sid, l: Level): Room {
    match Authority(r.board, l)
    case None => Rebalance(r, l)
    case Some(a) => if a in r.people.info then NotifyOne(r, l, a, s) else r
  }

  function ChangeLevel(r: Room, s: Sid, l: Level): Room {
    if !MaySend(r, s, LevelUpdate) || s !in r.people.info then r else EnterLevel(LeaveLevel(r, s, l), s, l)
  }

  /** A NetLevelDataHeartbeat naming a level. */
  function Heartbeat(r: Room, s: Sid, l: Level): Room {
    if !MaySend(r, s, GameMsg) || !InLevel(r.people, s, l) || l in r.board.authority then r else SelectAndElect(r, l)
  }

  /** penalizeAuthorityRevokeAttempt: a client's NetLevelDataRevoke. */
  function ClientRevoke(r: Room, s: Sid): Room {
    if !MaySend(r, s, GameMsg) || s !in r.people.info then r
    else
      var l := r.people.info[s].level;
      if Authority(r.board, l) != Some(s) then r
      else
        var b := RevokeAuthority(Penalize(r.board, l, s), l);
        SelectAndElect(r.(board := b, log := r.log + Revokes(ActiveList(r.people, l), r.people.info[s].id)), l)
  }

  /** revokeAndRebalanceAuthority: the election runs behind the gate, then every player is told both. */
  function ServerRevoke(r: Room, l: Level): Room {
    match Authority(r.board, l)
    case None => r
    case Some(a) =>
      if a !in r.people.info then r
      else
        var gated := r.(board := RevokeAuthority(r.board, l).(suppressed := r.board.suppressed + {l}));
        var done := Rebalance(gated, l);
        var next := Authority(done.board, l);
        var nextId := if next.Some? && next.value in r.people.info then Some(r.people.info[next.value].id) else None;
        done.(board := done.board.(suppressed := done.board.suppressed - {l}),
              log := done.log + RevokesAndElects(ActiveList(r.people, l), r.people.info[a].id, nextId, l))
  }

  // ----- Moves -----

  predicate HasPending(r: Room, id: int) {
    exists m :: m in r.pending && r.pending[m] == id
  }

  predicate Movable(r: Room, s: Sid) {
    s in r.people.info && InState(r.people, s, Active) && !HasPending(r, r.people.info[s].id)
  }

  /** A session that becomes MOVING gives up its level. */
  function StartMoving(r: Room, s: Sid): Room
    requires s in r.people.info
  {
    Release(r.(people := SetState(r.people, s, Moving)), s, r.people.info[s].level)
  }

  /** movePlayer; sent is false where the MoveGame send threw. */
  function MoveOne(r: Room, s: Sid, target: string, now: int, sent: bool): Room {
    if !Movable(r, s) || !sent then r
    else
      var id := r.people.info[s].id;
      StartMoving(r.(pending := r.pending[Single(id, target, now) := id], log := r.log + [MoveGame(s)]), s)
  }

  function Eligible(r: Room, group: seq<Sid>): (e: seq<Sid>)
    ensures |e| <= |group|
    ensures forall s :: s in e ==> s in group && Movable(r, s)
  {
    if group == [] then []
    else if Movable(r, group[0]) then [group[0]] + Eligible(r, group[1..])
    else Eligible(r, group[1..])
  }

  function IdOf(r: Room, s: Sid): int {
    if s in r.people.info then r.people.info[s].id else 0
  }

  /** txn given: one transaction for the group; otherwise ids like those of single moves. */
  function MoveIdFor(r: Room, s: Sid, txn: Option<string>, target: string, now: int): MoveId {
    match txn
    case Some(t) => Group(t, IdOf(r, s))
    case None => Single(IdOf(r, s), target, now)
  }

  function PrepareAll(r: Room, group: seq<Sid>, txn: Option<string>, target: string, now: int): map<MoveId, int>
    decreases |group|
  {
    if group == [] then r.pending
    else
      PrepareAll(r.(pending := r.pending[MoveIdFor(r, group[0], txn, target, now) := IdOf(r, group[0])]),
                 group[1..], txn, target, now)
  }

  function StartAll(r: Room, group: seq<Sid>): Room
    decreases |group|
  {
    if group == [] then r
    else if group[0] in r.people.info then StartAll(StartMoving(r, group[0]), group[1..])
    else StartAll(r, group[1..])
  }

  predicate NoDuplicates(s: seq<Sid>) {
    forall i, j :: 0 <= i < j < |s| ==> s[i] != s[j]
  }

  predicate GroupAccepted(r: Room, group: seq<Sid>) {
    group != [] && |group| <= MAX_GROUP && NoDuplicates(group) && Eligible(r, group) != []
  }

  function MoveGames(group: seq<Sid>): (m: seq<Msg>)
    ensures |m| == |group|
  {
    seq(|group|, i requires 0 <= i < |group| => MoveGame(group[i]))
  }

  function CancelMoves(group: seq<Sid>): (m: seq<Msg>)
    ensures |m| == |group|
  {
    seq(|group|, i requires 0 <= i < |group| => CancelMove(group[i]))
  }

  /** movePlayersAtomic; failAt is the position of the MoveGame send that throws, if one does. */
  function MoveGroup(r: Room, group: seq<Sid>, txn: Option<string>, target: string, now: int,
      failAt: Option<nat>): Room {
    if !GroupAccepted(r, group) then r
    else
      var eligible := Eligible(r, group);
      if failAt.Some? && failAt.value < |eligible| then
        var told := eligible[..failAt.value];
        r.(log := r.log + MoveGames(told) + CancelMoves(told))
      else
        StartAll(r.(pending := PrepareAll(r, eligible, txn, target, now), log := r.log + MoveGames(eligible)), eligible)
  }

  datatype Refusal = EmptyGroup | GroupTooLarge | DuplicatePlayers | NotMovable | SendFailed

  /** What movePlayersAtomic reports; failed names the members that did not move. */
  datatype Outcome = Moved(moved: seq<Sid>, failed: seq<Sid>) | Refused(reason: Refusal, failed: seq<Sid>)

  function Except(group: seq<Sid>, taken: seq<Sid>): (e: seq<Sid>)
    ensures forall s :: s in e <==> s in group && s !in taken
  {
    if group == [] then []
    else if group[0] in taken then Except(group[1..], taken)
    else [group[0]] + Except(group[1..], taken)
  }

  function GroupOutcome(r: Room, group: seq<Sid>, failAt: Option<nat>): Outcome {
    var eligible := Eligible(r, group);
    if group == [] then Refused(EmptyGroup, [])
    else if |group| > MAX_GROUP then Refused(GroupTooLarge, [])
    else if !NoDuplicates(group) then Refused(DuplicatePlayers, [])
    else if eligible == [] then Refused(NotMovable, [])
    else if failAt.Some? && failAt.value < |eligible| then Refused(SendFailed, eligible)
    else Moved(eligible, Except(group, eligible))
  }

  function ForgetMoves(r: Room, id: int): Room {
    r.(pending := map m | m in r.pending && r.pending[m] != id :: r.pending[m])
  }

  /** A moving session that becomes ACTIVE again; the authority it finds is not announced to it. */
  function Resume(r: Room, s: Sid): Room
    requires s in r.people.info
  {
    Rebalance(r.(people := SetState(r.people, s, Active), log := r.log + [Resumed(s)]), r.people.info[s].level)
  }

  /** handleMoveResult. */
  function HandleMoveResult(r: Room, s: Sid, result: int): Room {
    if !MaySend(r, s, MoveResult) || s !in r.people.info || !HasPending(r, r.people.info[s].id) then r
    else
      var acked := ForgetMoves(r, r.people.info[s].id);
      if result != 0 && InState(r.people, s, Moving) then Resume(acked, s) else acked
  }

  /** cancelPlayerMove; sent is false where the CancelMove send threw. */
  function CancelPlayerMove(r: Room, s: Sid, sent: bool): Room {
    if s !in r.people.info || !sent then r
    else
      var told := r.(log := r.log + [CancelMove(s)]);
      ForgetMoves(if InState(r.people, s, Moving) then Resume(told, s) else told, r.people.info[s].id)
  }

  // ----- Connections -----

  function Connect(r: Room): Room {
    r.(people := r.people.(sessions := r.people.sessions[r.people.nextSid := Pending], nextSid := r.people.nextSid + 1))
  }

  /** The bad-packet limit: the session is CLOSED, its player stays until the disconnect. */
  function Close(r: Room, s: Sid): Room {
    if s !in r.people.sessions || r.people.sessions[s] == Closed then r
    else r.(people := SetState(r.people, s, Closed))
  }

  function Remove(order: seq<Sid>, s: Sid): seq<Sid> {
    if order == [] then []
    else if order[0] == s then Remove(order[1..], s)
    else [order[0]] + Remove(order[1..], s)
  }

  function Disconnect(r: Room, s: Sid): Room {
    if s !in r.people.sessions then r
    else
      var gone := r.(people := r.people.(sessions := r.people.sessions - {s}));
      if s !in r.people.info then gone
      else
        var removed := gone.(people := gone.people.(order := Remove(r.people.order, s), info := r.people.info - {s}));
        Release(ForgetMoves(removed, r.people.info[s].id), s, r.people.info[s].level)
  }

  // ----- Runs -----

  datatype Event =
    | EvConnect
    | EvJoin(s: Sid, id: int, uuid: string, level: Level, sent: bool)
    | EvChangeLevel(s: Sid, level: Level)
    | EvHeartbeat(s: Sid, level: Level)
    | EvClientRevoke(s: Sid)
    | EvServerRevoke(level: Level)
    | EvMove(s: Sid, target: string, now: int, sent: bool)
    | EvMoveGroup(group: seq<Sid>, txn: Option<string>, target: string, now: int, failAt: Option<nat>)
    | EvMoveResult(s: Sid, result: int)
    | EvCancelMove(s: Sid, sent: bool)
    | EvClose(s: Sid)
    | EvDisconnect(s: Sid)

  function Step(r: Room, e: Event): Room {
    match e
    case EvConnect => Connect(r)
    case EvJoin(s, id, uuid, l, sent) => Join(r, s, id, uuid, l, sent)
    case EvChangeLevel(s, l) => ChangeLevel(r, s, l)
    case EvHeartbeat(s, l) => Heartbeat(r, s, l)
    case EvClientRevoke(s) => ClientRevoke(r, s)
    case EvServerRevoke(l) => ServerRevoke(r, l)
    case EvMove(s, target, now, sent) => MoveOne(r, s, target, now, sent)
    case EvMoveGroup(group, txn, target, now, failAt) => MoveGroup(r, group, txn, target, now, failAt)
    case EvMoveResult(s, result) => HandleMoveResult(r, s, result)
    case EvCancelMove(s, sent) => CancelPlayerMove(r, s, sent)
    case EvClose(s) => Close(r, s)
    case EvDisconnect(s) => Disconnect(r, s)
  }

  function Run(events: seq<Event>): Room {
    if events == [] then Initial else Step(Run(events[..|events| - 1]), events[|events| - 1])
  }
}
