/**
 * The services of one room over the maps they share: LevelStateStore, LevelService,
 * GameMessageService, MoveService, JoinService, PeerEventHandler and the election gate.
 * Sessions and players are values keyed by the session's id.
 */
module RoomServers {
  import opened Options
  import opened Connections
  import opened RoomSteps
  import opened RoomInvariants
  import opened RoomRuns

  class LevelStateStore {
    var authorities: map<Level, Sid>
    var penalized: map<Level, set<Sid>>

    constructor ()
      ensures authorities == map[] && penalized == map[]
    {
      authorities, penalized := map[], map[];
    }

    ghost function View(): Board
      reads this
    {
      Board(authorities, penalized, {})
    }

    method GetAuthority(l: Level) returns (a: Option<Sid>)
      ensures a == Authority(View(), l)
    {
      a := if l in authorities then Some(authorities[l]) else None;
    }

    method RevokeAuthority(l: Level)
      modifies this
      ensures View() == RoomSteps.RevokeAuthority(old(View()), l)
    {
      authorities := authorities - {l};
    }

    method PenalizeAuthorityCandidate(l: Level, s: Sid)
      modifies this
      ensures View() == Penalize(old(View()), l, s)
    {
      if l !in penalized {
        penalized := penalized[l := {}];
      }
      penalized := penalized[l := penalized[l] + {s}];
      assert penalized == Penalize(old(View()), l, s).penalized;
    }

    method ClearAuthorityPenalty(l: Level, s: Sid)
      modifies this
      ensures View() == ClearPenalty(old(View()), l, s)
    {
      if l !in penalized { return; }
      penalized := penalized[l := penalized[l] - {s}];
      if penalized[l] == {} {
        penalized := penalized - {l};
      }
      assert penalized == ClearPenalty(old(View()), l, s).penalized;
    }

    method IsAuthorityCandidatePenalized(l: Level, s: Sid) returns (b: bool)
      ensures b == (s in Pen(View(), l))
    {
      b := l in penalized && s in penalized[l];
    }

    method PruneAuthorityCandidatePenalties(l: Level, active: seq<Sid>)
      modifies this
      ensures View() == Prune(old(View()), l, active)
    {
      if l !in penalized { return; }
      var before := penalized[l];
      var kept, left := before, before;
      while left != {}
        invariant left <= before
        invariant kept == set s | s in before && (s in left || s in active)
        decreases |left|
      {
        var s :| s in left;
        left := left - {s};
        if s !in active {
          kept := kept - {s};
        }
      }
      ghost var b := old(View());
      assert kept == Among(Pen(b, l), active);
      penalized := penalized[l := kept];
      if kept == {} {
        penalized := penalized - {l};
        assert penalized == b.penalized - {l};
      }
      assert View() == SetPen(b, l, kept);
    }

    method Reset(l: Level)
      modifies this
      ensures View() == RoomSteps.Reset(old(View()), l)
    {
      RevokeAuthority(l);
      penalized := penalized - {l};
    }
  }

  class RoomServer {
    const levels: LevelStateStore
    const badPacketLimit: nat
    const maxPeers: nat
    var sessions: map<Sid, Conn>
    var order: seq<Sid>
    var info: map<Sid, Info>
    var nextSid: Sid
    var badPackets: map<Sid, nat>
    var suppressedLevels: set<Level>
    var pendingMoves: map<MoveId, int>
    ghost var log: seq<Msg>

    constructor (badPacketLimit: nat, maxPeers: nat)
      ensures Valid() && State() == Initial && fresh(levels)
      ensures this.badPacketLimit == badPacketLimit && this.maxPeers == maxPeers
    {
      levels := new LevelStateStore();
      this.badPacketLimit, this.maxPeers := badPacketLimit, maxPeers;
      sessions, order, info, nextSid, badPackets := map[], [], map[], 0, map[];
      suppressedLevels, pendingMoves, log := {}, map[], [];
      new;
      EmptyRoom();
    }

    ghost function State(): Room
      reads this, levels
    {
      Room(People(sessions, order, info, nextSid), levels.View().(suppressed := suppressedLevels), pendingMoves, log)
    }

    ghost predicate Valid()
      reads this, levels
    {
      Inv(State())
    }

    // ----- Listings -----

    method ListActiveInLevel(l: Level) returns (active: seq<Sid>)
      ensures active == ActiveList(State().people, l)
    {
      active := [];
      ghost var p := State().people;
      for i := 0 to |order|
        invariant ActiveList(p, l) == active + Actives(p, order[i..], l)
      {
        if order[i] in info && info[order[i]].level == l && order[i] in sessions && sessions[order[i]] == Active {
          active := active + [order[i]];
        }
        assert order[i..][1..] == order[i + 1..];
      }
    }

    // ----- Elections -----

    /** Players of the level hear of the authority: all active ones, or the one given. */
    method HandleAuthorityElected(l: Level, authority: Sid, target: Option<Sid>)
      requires authority in info
      modifies this`log
      ensures State() ==
              if target.Some? then NotifyOne(old(State()), l, authority, target.value)
              else if l in old(suppressedLevels) then old(State())
              else old(State()).(log := old(log) + Elects(ActiveList(old(State()).people, l), info[authority].id, l))
    {
      if l in suppressedLevels { return; }
      if target.Some? {
        log := log + [Elect(target.value, info[authority].id, l)];
        return;
      }
      var active := ListActiveInLevel(l);
      var i := 0;
      while i < |active|
        invariant 0 <= i <= |active|
        invariant log == old(log) + Elects(active[..i], info[authority].id, l)
      {
        log := log + [Elect(active[i], info[authority].id, l)];
        assert Elects(active[..i + 1], info[authority].id, l) ==
               Elects(active[..i], info[authority].id, l) + [Elect(active[i], info[authority].id, l)];
        i := i + 1;
      }
      assert active[..|active|] == active;
    }

    /** ok is false where the source throws: the player is not in the level. */
    method SetAuthority(l: Level, s: Sid) returns (ok: bool)
      modifies this`log, levels
      ensures ok == CanElect(old(State()), l, s)
      ensures State() == if ok then RoomSteps.SetAuthority(old(State()), l, s) else old(State())
    {
      ok := s in info && info[s].level == l;
      if !ok { return; }
      var previous := levels.GetAuthority(l);
      levels.authorities := levels.authorities[l := s];
      if previous != Some(s) {
        HandleAuthorityElected(l, s, None);
      }
    }

    method FindUnpenalized(l: Level, active: seq<Sid>) returns (c: Option<Sid>)
      ensures c == FirstUnpenalized(active, Pen(State().board, l))
    {
      var i := 0;
      while i < |active|
        invariant 0 <= i <= |active|
        invariant FirstUnpenalized(active, Pen(State().board, l)) ==
                  FirstUnpenalized(active[i..], Pen(State().board, l))
      {
        var penalized := levels.IsAuthorityCandidatePenalized(l, active[i]);
        if !penalized { return Some(active[i]); }
        assert active[i..][1..] == active[i + 1..];
        i := i + 1;
      }
      c := None;
    }

    /** The candidate among the active players; a sole player's penalty is lifted. */
    method PickCandidate(l: Level, active: seq<Sid>) returns (next: Option<Sid>)
      modifies levels
      ensures next == Pick(old(State()).board, l, active)
      ensures State() == old(State()).(board := Forgiven(old(State()).board, l, next))
    {
      next := FindUnpenalized(l, active);
      if next.None? && |active| == 1 {
        assert active[0] in Pen(State().board, l);
        next := Some(active[0]);
        levels.ClearAuthorityPenalty(l, active[0]);
      }
    }

    /** A heartbeat or a client's revoke: the level has no authority, so whoever is picked is elected. */
    method SelectAndElect(l: Level, active: seq<Sid>)
      requires active == ActiveList(State().people, l)
      modifies this`log, levels
      ensures State() == RoomSteps.SelectAndElect(old(State()), l)
    {
      hide Elects, ActiveList, Prune, Pick, ClearPenalty;
      PruneGated(levels.View(), suppressedLevels, l, active);
      levels.PruneAuthorityCandidatePenalties(l, active);
      ghost var pruned := State();
      var next := PickCandidate(l, active);
      if next.Some? {
        PickedElectable(old(State()), pruned, l, active);
        var ok := SetAuthority(l, next.value);
      }
    }

    method RebalanceAuthority(l: Level) returns (next: Option<Sid>)
      modifies this`log, levels
      ensures State() == Rebalance(old(State()), l)
      ensures l !in old(levels.authorities) ==> next == Authority(State().board, l)
      ensures next.Some? ==> InLevel(State().people, next.value, l)
    {
      hide Elects, ActiveList, Prune, Pick, ClearPenalty;
      var current := levels.GetAuthority(l);
      var active := ListActiveInLevel(l);
      PruneGated(levels.View(), suppressedLevels, l, active);
      PenaltyOps(levels.View(), l, 0, active);
      levels.PruneAuthorityCandidatePenalties(l, active);
      ghost var pruned := State();
      if current.Some? && current.value in active {
        var penalized := levels.IsAuthorityCandidatePenalized(l, current.value);
        if !penalized {
          PickedIsActive(old(State()), l);
          return current;
        }
      }
      next := PickCandidate(l, active);
      if next.Some? {
        PickedElectable(old(State()), pruned, l, active);
        var ok := SetAuthority(l, next.value);
        return;
      }
      if active == [] {
        levels.Reset(l);
      }
    }

    /** The player gives up its level: on leaving, disconnecting, or moving away. */
    method ReleaseAuthority(s: Sid, l: Level)
      modifies this`log, levels
      ensures State() == Release(old(State()), s, l)
    {
      hide Rebalance;
      levels.ClearAuthorityPenalty(l, s);
      var authority := levels.GetAuthority(l);
      if authority == Some(s) {
        levels.RevokeAuthority(l);
      }
      var next := RebalanceAuthority(l);
    }

    // ----- Sessions and the player store -----

    /** ok is false where the source throws; the state then stays. */
    method Transition(s: Sid, c: Conn) returns (ok: bool)
      requires s in sessions
      modifies this`sessions
      ensures ok == (c == old(sessions[s]) || CanTransition(old(sessions[s]), c))
      ensures sessions == if ok then old(sessions)[s := c] else old(sessions)
    {
      if c == sessions[s] {
        assert sessions[s := c] == sessions;
        return true;
      }
      ok := CanTransition(sessions[s], c);
      if ok {
        sessions := sessions[s := c];
      }
    }

    /** ok is false where the source throws: no room, or the session, the id or the uuid is taken. */
    method AddPlayer(s: Sid, id: int, uuid: string, l: Level) returns (ok: bool)
      modifies this`order, this`info
      ensures ok == CanAdd(old(State()), s, id, uuid)
      ensures order == if ok then old(order) + [s] else old(order)
      ensures info == if ok then old(info)[s := Info(id, uuid, l)] else old(info)
    {
      ok := |info| < MAX_PLAYERS && s !in info && forall t :: t in info ==> info[t].id != id && info[t].uuid != uuid;
      if ok {
        order := order + [s];
        info := info[s := Info(id, uuid, l)];
      }
    }

    method RemoveBySession(s: Sid)
      modifies this`order, this`info
      ensures order == Remove(old(order), s) && info == old(info) - {s}
    {
      order := Remove(order, s);
      info := info - {s};
    }

    /** None where the room has all the peers it may have. */
    method OnConnect() returns (session: Option<Sid>)
      requires Valid()
      modifies this
      ensures Valid() && session == if |old(sessions)| < maxPeers then Some(old(nextSid)) else None
      ensures State() == if session.Some? then Connect(old(State())) else old(State())
    {
      hide Inv;
      ghost var r := State();
      if |sessions| >= maxPeers { return None; }
      var s := nextSid;
      session := Some(s);
      nextSid := nextSid + 1;
      sessions := sessions[s := Connected];
      var ok := Transition(s, Pending);
      assert sessions == r.people.sessions[s := Pending];
      StepKeepsInv(r, EvConnect);
    }

    /** A bad packet: at the limit the session is closed, its player waiting for the disconnect. */
    method RejectSessionPacket(s: Sid)
      requires Valid() && s in sessions
      modifies this
      ensures Valid() && badPackets == old(badPackets)[s := old(if s in badPackets then badPackets[s] else 0) + 1]
      ensures State() == if badPackets[s] >= badPacketLimit then Close(old(State()), s) else old(State())
    {
      hide Inv;
      ghost var r := State();
      badPackets := badPackets[s := (if s in badPackets then badPackets[s] else 0) + 1];
      if badPackets[s] >= badPacketLimit && sessions[s] != Closed {
        var ok := Transition(s, Closed);
      }
      StepKeepsInv(r, EvClose(s));
    }

    // ----- Joining and changing level -----

    /** sent is false where the EnterGame send throws: the player is taken out again. */
    method Join(s: Sid, id: int, uuid: string, l: Level, sent: bool) returns (joined: bool)
      requires Valid()
      modifies this, levels
      ensures Valid() && State() == RoomSteps.Join(old(State()), s, id, uuid, l, sent)
      ensures joined == old(MaySend(State(), s, JoinGame) && CanAdd(State(), s, id, uuid) && sent)
    {
      hide Inv, LevelOk, RoomSteps.SetAuthority;
      ghost var r := State();
      StepKeepsInv(r, EvJoin(s, id, uuid, l, sent));
      if !(s in sessions && Allowed(sessions[s], JoinGame)) { return false; }
      joined := AddPlayer(s, id, uuid, l);
      if !joined { return; }
      if !sent {
        AddedThenRemoved(r.people, s, id, uuid, l) by { InvPeople(r); }
        RemoveBySession(s);
        return false;
      }
      var ok := Transition(s, Active);
      var authority := levels.GetAuthority(l);
      if authority.None? {
        ok := SetAuthority(l, s);
      } else {
        InvAuthority(r, l);
        HandleAuthorityElected(l, authority.value, Some(s));
      }
    }

    method ChangeLevel(s: Sid, l: Level)
      requires Valid()
      modifies this, levels
      ensures Valid() && State() == RoomSteps.ChangeLevel(old(State()), s, l)
    {
      hide Inv, Rebalance, ClearPenalty;
      ghost var r := State();
      StepKeepsInv(r, EvChangeLevel(s, l));
      if !(s in sessions && Allowed(sessions[s], LevelUpdate)) || s !in info { return; }
      var oldLevel := info[s].level;
      if oldLevel != l {
        ClearGated(levels.View(), suppressedLevels, oldLevel, s);
        levels.ClearAuthorityPenalty(oldLevel, s);
      }
      info := info[s := info[s].(level := l)];
      var holder := levels.GetAuthority(oldLevel);
      if oldLevel != l && holder == Some(s) {
        levels.RevokeAuthority(oldLevel);
        var next := RebalanceAuthority(oldLevel);
      }
      assert State() == LeaveLevel(r, s, l);
      LeftAuthority(r, s, l);
      var authority := levels.GetAuthority(l);
      if authority.None? {
        var next := RebalanceAuthority(l);
      } else {
        HandleAuthorityElected(l, authority.value, Some(s));
      }
    }

    method OnDisconnect(s: Sid)
      requires Valid()
      modifies this, levels
      ensures Valid() && State() == Disconnect(old(State()), s)
    {
      hide Inv, Release;
      ghost var r := State();
      StepKeepsInv(r, EvDisconnect(s));
      if s !in sessions { return; }
      sessions := sessions - {s};
      if s !in info { return; }
      var player := info[s];
      RemoveBySession(s);
      var removed := ForgetPlayerMoves(player.id);
      ReleaseAuthority(s, player.level);
    }

    // ----- Moves -----

    method ForgetPlayerMoves(id: int) returns (removed: nat)
      modifies this`pendingMoves
      ensures State() == ForgetMoves(old(State()), id)
      ensures removed == |old(pendingMoves)| - |pendingMoves|
    {
      var left := pendingMoves.Keys;
      removed := 0;
      ghost var was := pendingMoves;
      while left != {}
        invariant left <= was.Keys
        invariant forall m :: m in pendingMoves <==> m in was && (m in left || was[m] != id)
        invariant forall m :: m in pendingMoves ==> pendingMoves[m] == was[m]
        invariant removed == |was| - |pendingMoves|
        decreases |left|
      {
        var m :| m in left;
        left := left - {m};
        if pendingMoves[m] == id {
          OneFewer(pendingMoves, m);
          pendingMoves := pendingMoves - {m};
          removed := removed + 1;
        }
      }
      assert pendingMoves == ForgetMoves(old(State()), id).pending;
    }

    method FindPendingByPlayer(id: int) returns (found: Option<MoveId>)
      ensures found.Some? ==> found.value in pendingMoves && pendingMoves[found.value] == id
      ensures found.None? ==> !HasPending(State(), id)
    {
      var left := pendingMoves.Keys;
      while left != {}
        invariant left <= pendingMoves.Keys
        invariant forall m :: m in pendingMoves && pendingMoves[m] == id ==> m in left
        decreases |left|
      {
        var m :| m in left;
        if pendingMoves[m] == id { return Some(m); }
        left := left - {m};
      }
      found := None;
    }

    method IsMovable(s: Sid) returns (b: bool)
      ensures b == Movable(State(), s)
    {
      b := false;
      if s in info && s in sessions && sessions[s] == Active {
        var found := FindPendingByPlayer(info[s].id);
        b := found.None?;
      }
    }

    /** sent is false where the MoveGame send throws: the pending move is dropped again. */
    method MovePlayer(s: Sid, target: string, now: int, sent: bool) returns (moved: bool)
      requires Valid()
      modifies this, levels
      ensures Valid() && State() == MoveOne(old(State()), s, target, now, sent)
      ensures moved == (old(Movable(State(), s)) && sent)
    {
      hide Inv, Release;
      ghost var r := State();
      StepKeepsInv(r, EvMove(s, target, now, sent));
      moved := IsMovable(s);
      if !moved { return; }
      var moveId := Single(info[s].id, target, now);
      InvFreshKey(r, moveId, s);
      pendingMoves := pendingMoves[moveId := info[s].id];
      if !sent {
        pendingMoves := pendingMoves - {moveId};
        assert pendingMoves == r.pending;
        return false;
      }
      log := log + [MoveGame(s)];
      var ok := Transition(s, Moving);
      ReleaseAuthority(s, info[s].level);
    }

    /** sent is false where the CancelMove send throws. */
    method CancelPlayerMove(s: Sid, sent: bool) returns (cancelled: bool)
      requires Valid()
      modifies this, levels
      ensures Valid() && State() == RoomSteps.CancelPlayerMove(old(State()), s, sent)
      ensures cancelled == (s in old(info) && sent)
    {
      hide Inv, Rebalance;
      ghost var r := State();
      StepKeepsInv(r, EvCancelMove(s, sent));
      if s !in info || !sent { return false; }
      InvPeople(r);
      log := log + [CancelMove(s)];
      if sessions[s] == Moving {
        ResumeSession(s);
      }
      var removed := ForgetPlayerMoves(info[s].id);
      cancelled := true;
    }

    /** A moving session becomes ACTIVE again; that it did is noted in the history. */
    method ResumeSession(s: Sid)
      requires s in info && s in sessions && sessions[s] == Moving
      modifies this, levels
      ensures State() == Resume(old(State()), s) && info == old(info) && badPackets == old(badPackets)
    {
      hide Rebalance;
      var ok := Transition(s, Active);
      log := log + [Resumed(s)];
      ghost var back := State();
      RebalancePeople(back, info[s].level);
      var next := RebalanceAuthority(info[s].level);
    }

    method HandleMoveResult(s: Sid, result: int)
      requires Valid()
      modifies this, levels
      ensures Valid() && State() == RoomSteps.HandleMoveResult(old(State()), s, result)
    {
      hide Inv, Rebalance;
      ghost var r := State();
      StepKeepsInv(r, EvMoveResult(s, result));
      if !(s in sessions && Allowed(sessions[s], MoveResult)) || s !in info { return; }
      var matched := FindPendingByPlayer(info[s].id);
      if matched.None? { return; }
      InvOnlyMove(r, matched.value);
      pendingMoves := pendingMoves - {matched.value};
      assert pendingMoves == ForgetMoves(r, info[s].id).pending;
      if result != 0 && sessions[s] == Moving {
        ResumeSession(s);
      }
    }

    /** The group without repetitions, in order. */
    method Unique(group: seq<Sid>) returns (unique: seq<Sid>)
      ensures NoDuplicates(group) ==> unique == group
      ensures !NoDuplicates(group) ==> |unique| < |group|
    {
      unique := [];
      var i := 0;
      while i < |group|
        invariant 0 <= i <= |group|
        invariant forall s :: s in unique <==> s in group[..i]
        invariant NoDuplicates(group[..i]) ==> unique == group[..i]
        invariant !NoDuplicates(group[..i]) ==> |unique| < i
      {
        DuplicatesPrefix(group, i);
        if group[i] !in unique {
          unique := unique + [group[i]];
        }
        i := i + 1;
      }
      assert group[..|group|] == group;
    }

    method ListMovable(group: seq<Sid>) returns (eligible: seq<Sid>)
      ensures eligible == Eligible(State(), group)
    {
      eligible := [];
      assert group[0..] == group;
      var i := 0;
      while i < |group|
        invariant 0 <= i <= |group|
        invariant Eligible(State(), group) == eligible + Eligible(State(), group[i..])
      {
        assert group[i..][1..] == group[i + 1..];
        var movable := IsMovable(group[i]);
        if movable {
          eligible := eligible + [group[i]];
        }
        i := i + 1;
      }
    }

    method ListRejected(group: seq<Sid>, eligible: seq<Sid>) returns (rejected: seq<Sid>)
      ensures rejected == Except(group, eligible)
    {
      rejected := [];
      assert group[0..] == group;
      var i := 0;
      while i < |group|
        invariant 0 <= i <= |group|
        invariant Except(group, eligible) == rejected + Except(group[i..], eligible)
      {
        assert group[i..][1..] == group[i + 1..];
        if group[i] !in eligible {
          rejected := rejected + [group[i]];
        }
        i := i + 1;
      }
    }

    /** Every member gets its pending move; none of the keys was taken. */
    method PrepareMoves(eligible: seq<Sid>, txn: Option<string>, target: string, now: int)
        returns (prepared: seq<MoveId>)
      requires Valid() && Ready(State(), eligible)
      modifies this`pendingMoves
      ensures pendingMoves == PrepareAll(old(State()), eligible, txn, target, now)
      ensures AddedKeys(old(pendingMoves), pendingMoves, prepared)
    {
      hide Inv, HasPending, NoDuplicates, AddedKeys;
      ghost var r := State();
      prepared := [];
      AddedNone(r.pending);
      assert eligible[0..] == eligible;
      var i := 0;
      while i < |eligible|
        invariant 0 <= i <= |eligible|
        invariant PrepareAll(r, eligible, txn, target, now) == PrepareAll(State(), eligible[i..], txn, target, now)
        invariant AddedKeys(r.pending, pendingMoves, prepared)
      {
        assert eligible[i..][1..] == eligible[i + 1..] && eligible[i] in eligible;
        var id := info[eligible[i]].id;
        var moveId := match txn case Some(t) => Group(t, id) case None => Single(id, target, now);
        assert moveId == MoveIdFor(State(), eligible[i], txn, target, now) ==
               MoveIdFor(r, eligible[i], txn, target, now);
        InvFreshKey(r, moveId, eligible[i]);
        PreparedOne(State(), eligible[i..], txn, target, now);
        AddedOne(r.pending, pendingMoves, prepared, moveId, id);
        pendingMoves := pendingMoves[moveId := id];
        prepared := prepared + [moveId];
        i := i + 1;
      }
    }

    /** The prepared moves are dropped and everyone told to move is told to cancel. */
    method RollBack(prepared: seq<MoveId>, moved: seq<Sid>, ghost was: map<MoveId, int>)
      requires AddedKeys(was, pendingMoves, prepared)
      modifies this`pendingMoves, this`log
      ensures pendingMoves == was && log == old(log) + CancelMoves(moved)
    {
      var i := 0;
      while i < |prepared|
        invariant 0 <= i <= |prepared|
        invariant was.Keys <= pendingMoves.Keys && log == old(log)
        invariant forall m :: m in pendingMoves ==> m in was || m in prepared[i..]
        invariant forall m :: m in was ==> pendingMoves[m] == was[m]
      {
        assert prepared[i] in prepared && prepared[i] !in was;
        assert prepared[i..] == [prepared[i]] + prepared[i + 1..];
        pendingMoves := pendingMoves - {prepared[i]};
        i := i + 1;
      }
      assert pendingMoves == was;
      i := 0;
      while i < |moved|
        invariant 0 <= i <= |moved|
        invariant pendingMoves == was && log == old(log) + CancelMoves(moved[..i])
      {
        log := log + [CancelMove(moved[i])];
        assert CancelMoves(moved[..i + 1]) == CancelMoves(moved[..i]) + [CancelMove(moved[i])];
        i := i + 1;
      }
      assert moved[..|moved|] == moved;
    }

    /** Every member becomes MOVING and gives up its level. */
    method StartMoves(moved: seq<Sid>)
      requires Core(State()) && NoDuplicates(moved)
      requires AllActive(State().people, moved)
      modifies this`sessions, this`log, levels
      ensures State() == StartAll(old(State()), moved)
    {
      hide Core, Release, NoDuplicates, AllActive;
      ghost var r := State();
      assert moved[0..] == moved;
      var i := 0;
      while i < |moved|
        invariant 0 <= i <= |moved|
        invariant Core(State()) && NoDuplicates(moved[i..])
        invariant AllActive(State().people, moved[i..])
        invariant StartAll(r, moved) == StartAll(State(), moved[i..])
      {
        assert moved[i..][1..] == moved[i + 1..];
        ghost var before := State();
        OthersActive(before.people, moved[i..]);
        StartMovingKeepsCore(before, moved[i]);
        var ok := Transition(moved[i], Moving);
        ReleaseAuthority(moved[i], info[moved[i]].level);
        assert State() == StartMoving(before, moved[i]);
        i := i + 1;
      }
    }

    /** failAt is the position of the MoveGame send that throws, if one does. */
    method MovePlayersAtomic(group: seq<Sid>, txn: Option<string>, target: string, now: int, failAt: Option<nat>)
      returns (outcome: Outcome)
      requires Valid()
      modifies this, levels
      ensures Valid() && State() == MoveGroup(old(State()), group, txn, target, now, failAt)
      ensures outcome == GroupOutcome(old(State()), group, failAt)
    {
      hide Inv, NoDuplicates, StartAll, PrepareAll, Ready, Core;
      ghost var r := State();
      StepKeepsInv(r, EvMoveGroup(group, txn, target, now, failAt));
      if group == [] { return Refused(EmptyGroup, []); }
      if |group| > MAX_GROUP { return Refused(GroupTooLarge, []); }
      var unique := Unique(group);
      if |unique| != |group| { return Refused(DuplicatePlayers, []); }
      var eligible := ListMovable(unique);
      if eligible == [] { return Refused(NotMovable, []); }
      var rejected := ListRejected(unique, eligible);
      EligibleReady(r, group);
      var prepared := PrepareMoves(eligible, txn, target, now);
      var moved: seq<Sid> := [];
      var i := 0;
      while i < |eligible|
        invariant 0 <= i <= |eligible| && moved == eligible[..i]
        invariant State() == r.(pending := PrepareAll(r, eligible, txn, target, now), log := r.log + MoveGames(moved))
        invariant failAt.Some? ==> i <= failAt.value
      {
        if failAt == Some(i) {
          RollBack(prepared, moved, r.pending);
          return Refused(SendFailed, eligible);
        }
        log := log + [MoveGame(eligible[i])];
        moved := moved + [eligible[i]];
        i := i + 1;
      }
      assert moved == eligible;
      PreparedCore(r, eligible, State());
      StartMoves(moved);
      outcome := Moved(moved, rejected);
    }

    // ----- Game messages -----

    method Heartbeat(s: Sid, l: Level)
      requires Valid()
      modifies this, levels
      ensures Valid() && State() == RoomSteps.Heartbeat(old(State()), s, l)
    {
      hide Inv, RoomSteps.SelectAndElect;
      StepKeepsInv(State(), EvHeartbeat(s, l));
      if !(s in sessions && Allowed(sessions[s], GameMsg)) || s !in info || info[s].level != l { return; }
      var authority := levels.GetAuthority(l);
      if authority.None? {
        var active := ListActiveInLevel(l);
        SelectAndElect(l, active);
      }
    }

    method SendRevokes(targets: seq<Sid>, authority: Sid)
      requires authority in info
      modifies this`log
      ensures log == old(log) + Revokes(targets, info[authority].id)
    {
      var i := 0;
      while i < |targets|
        invariant 0 <= i <= |targets|
        invariant log == old(log) + Revokes(targets[..i], info[authority].id)
      {
        log := log + [Revoke(targets[i], info[authority].id)];
        assert Revokes(targets[..i + 1], info[authority].id) ==
               Revokes(targets[..i], info[authority].id) + [Revoke(targets[i], info[authority].id)];
        i := i + 1;
      }
      assert targets[..|targets|] == targets;
    }

    /** A client asks to revoke: the authority doing so is penalized and another is elected. */
    method PenalizeAuthorityRevokeAttempt(s: Sid)
      requires Valid()
      modifies this, levels
      ensures Valid() && State() == ClientRevoke(old(State()), s)
    {
      hide Inv, RoomSteps.SelectAndElect, Revokes, ActiveList, Penalize;
      ghost var r := State();
      StepKeepsInv(r, EvClientRevoke(s));
      if !(s in sessions && Allowed(sessions[s], GameMsg)) || s !in info { return; }
      var l := info[s].level;
      var authority := levels.GetAuthority(l);
      if authority != Some(s) { return; }
      var active := ListActiveInLevel(l);
      PenalizeGated(levels.View(), suppressedLevels, l, s);
      levels.PenalizeAuthorityCandidate(l, s);
      SendRevokes(active, s);
      levels.RevokeAuthority(l);
      SelectAndElect(l, active);
    }

    method SendRevokeAndElect(l: Level, revoked: Sid, next: Option<Sid>)
      requires revoked in info && (next.Some? ==> next.value in info)
      modifies this`log
      ensures log == old(log) + RevokesAndElects(ActiveList(State().people, l), info[revoked].id,
                                                 if next.Some? then Some(info[next.value].id) else None, l)
    {
      hide ActiveList;
      var active := ListActiveInLevel(l);
      ghost var id, nextId := info[revoked].id, if next.Some? then Some(info[next.value].id) else None;
      ghost var all := old(log) + RevokesAndElects(active, id, nextId, l);
      assert active[0..] == active;
      var i := 0;
      while i < |active|
        invariant 0 <= i <= |active|
        invariant log + RevokesAndElects(active[i..], id, nextId, l) == all
      {
        assert active[i..][1..] == active[i + 1..];
        log := log + [Revoke(active[i], info[revoked].id)];
        if next.Some? {
          log := log + [Elect(active[i], info[next.value].id, l)];
        }
        i := i + 1;
      }
      assert log + [] == log;
    }

    /** The server revokes a level's authority; false when there is none. */
    method RevokeLevelAuthority(l: Level) returns (revoked: bool)
      requires Valid()
      modifies this, levels
      ensures Valid() && State() == ServerRevoke(old(State()), l) && revoked == (l in old(levels.authorities))
    {
      hide Inv, Rebalance, RevokesAndElects, ActiveList;
      ghost var r := State();
      StepKeepsInv(r, EvServerRevoke(l));
      var authority := levels.GetAuthority(l);
      if authority.None? { return false; }
      InvAuthority(r, l);
      levels.RevokeAuthority(l);
      suppressedLevels := suppressedLevels + {l};
      ghost var gated := State();
      var next := RebalanceAuthority(l);
      RebalancePeople(gated, l);
      suppressedLevels := suppressedLevels - {l};
      SendRevokeAndElect(l, authority.value, next);
      revoked := true;
    }
  }

  function Forgiven(b: Board, l: Level, s: Option<Sid>): Board {
    if s.Some? && s.value in Pen(b, l) then ClearPenalty(b, l, s.value) else b
  }

  lemma ClearGated(b: Board, suppressed: set<Level>, l: Level, s: Sid)
    ensures ClearPenalty(b.(suppressed := suppressed), l, s) == ClearPenalty(b, l, s).(suppressed := suppressed)
  {}

  lemma PenalizeGated(b: Board, suppressed: set<Level>, l: Level, s: Sid)
    ensures Penalize(b.(suppressed := suppressed), l, s) == Penalize(b, l, s).(suppressed := suppressed)
  {}

  lemma InvPeople(r: Room)
    requires Inv(r)
    ensures PeopleOk(r.people)
  {}

  lemma InvAuthority(r: Room, l: Level)
    requires Inv(r)
    ensures l in r.board.authority ==> InLevel(r.people, r.board.authority[l], l)
  {
    assert LevelOk(r, l);
  }

  /** A player taken out right after it was added leaves the store as it was. */
  lemma AddedThenRemoved(p: People, s: Sid, id: int, uuid: string, l: Level)
    requires PeopleOk(p) && s !in p.info
    ensures Remove(p.order + [s], s) == p.order && p.info[s := Info(id, uuid, l)] - {s} == p.info
  {
    RemoveAppended(p.order, s);
  }

  lemma {:induction false} RemoveAppended(order: seq<Sid>, s: Sid)
    requires s !in order
    ensures Remove(order + [s], s) == order
  {
    if order == [] {
      assert [s][1..] == [];
    } else {
      assert (order + [s])[1..] == order[1..] + [s];
      RemoveAppended(order[1..], s);
    }
  }

  /** When s has left its old level, the level it enters still has a stored authority, if any. */
  lemma LeftAuthority(r: Room, s: Sid, l: Level)
    requires Inv(r) && MaySend(r, s, LevelUpdate) && s in r.people.info
    ensures var r' := LeaveLevel(r, s, l);
            s in r'.people.info && (l in r'.board.authority ==> r'.board.authority[l] in r'.people.info)
  {
    hide PeopleOk, LevelOk, Rebalance, ClearPenalty;
    LeaveCarries(r, s, l);
    if r.people.info[s].level == l {
      InvAuthority(r, l);
    } else {
      LeaveKeeps(r, s, l);
    }
  }

  lemma OneFewer(pending: map<MoveId, int>, m: MoveId)
    requires m in pending
    ensures |pending - {m}| == |pending| - 1
  {
    assert pending.Keys == (pending - {m}).Keys + {m};
  }

  lemma InvFreshKey(r: Room, m: MoveId, s: Sid)
    requires Inv(r) && s in r.people.info && m.player == r.people.info[s].id && !HasPending(r, m.player)
    ensures m !in r.pending
  {
    FreshKey(r, m, s, {});
  }

  lemma InvOnlyMove(r: Room, m: MoveId)
    requires Inv(r) && m in r.pending
    ensures forall n :: n in r.pending && r.pending[n] == r.pending[m] ==> n == m
  {}

  lemma DuplicatesPrefix(s: seq<Sid>, i: nat)
    requires i < |s|
    ensures NoDuplicates(s[..i + 1]) <==> NoDuplicates(s[..i]) && s[i] !in s[..i]
    ensures s[..i + 1] == s[..i] + [s[i]]
  {
    assert s[..i + 1] == s[..i] + [s[i]];
    if s[i] in s[..i] {
      var j :| 0 <= j < i && s[j] == s[i];
      assert s[..i + 1][j] == s[..i + 1][i];
    }
    if NoDuplicates(s[..i + 1]) {
      forall a, b | 0 <= a < b < i ensures s[..i][a] != s[..i][b] {
        assert s[..i + 1][a] != s[..i + 1][b];
      }
    }
  }

  /** now holds what was held, and the added keys, none of which was there before, and nothing else. */
  ghost predicate AddedKeys(was: map<MoveId, int>, now: map<MoveId, int>, added: seq<MoveId>) {
    && now.Keys == was.Keys + (set m | m in added)
    && (forall m :: m in added ==> m !in was)
    && forall m :: m in was ==> now[m] == was[m]
  }

  lemma AddedNone(was: map<MoveId, int>)
    ensures AddedKeys(was, was, [])
  {}

  lemma AddedOne(was: map<MoveId, int>, now: map<MoveId, int>, added: seq<MoveId>, m: MoveId, id: int)
    requires AddedKeys(was, now, added) && m !in was
    ensures AddedKeys(was, now[m := id], added + [m])
  {}

  lemma PreparedOne(r: Room, group: seq<Sid>, txn: Option<string>, target: string, now: int)
    requires group != []
    ensures PrepareAll(r, group, txn, target, now) ==
            PrepareAll(r.(pending := r.pending[MoveIdFor(r, group[0], txn, target, now) := IdOf(r, group[0])]),
                       group[1..], txn, target, now)
  {}

  predicate AllActive(p: People, group: seq<Sid>) {
    forall s :: s in group ==> s in p.info && InState(p, s, Active)
  }

  lemma OthersActive(p: People, group: seq<Sid>)
    requires group != [] && NoDuplicates(group) && AllActive(p, group)
    ensures group[0] in p.info && InState(p, group[0], Active)
    ensures NoDuplicates(group[1..]) && AllActive(SetState(p, group[0], Moving), group[1..])
  {
    NoDuplicatesTail(group);
  }

  /** Pending moves and MoveGame messages change no level. */
  lemma PreparedCore(r: Room, eligible: seq<Sid>, r': Room)
    requires Inv(r) && r'.people == r.people && r'.board == r.board && r'.log == r.log + MoveGames(eligible)
    ensures Core(r')
  {
    hide LevelOk, PeopleOk, PendingOk, Last, MoveGames;
    MoveGamesAre(eligible);
    LastUnrelated(r.log, MoveGames(eligible));
    UnrelatedKeepsCore(r, r');
  }

  /** A candidate picked from the active list is in the level, whatever has become of the board. */
  lemma PickedElectable(r: Room, r': Room, l: Level, active: seq<Sid>)
    requires r'.people == r.people && active == ActiveList(r.people, l) && Pick(r'.board, l, active).Some?
    ensures CanElect(r', l, Pick(r'.board, l, active).value)
  {
    hide ActiveList;
    PickedIsActive(r, l);
  }
}
